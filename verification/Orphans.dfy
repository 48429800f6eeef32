/** Jobs removed from the repository: how they are found, how long they have been seen orphaned without
    a break, and when one may be deregistered. */
module Orphans {
  import opened Wrappers
  import opened Identity
  import opened Jobs
  import opened Updates
  import opened Decisions
  import opened GraceClock

  // ---- What the repository has ----

  // What parsing one file gave.
  datatype ParsedFile = NotAJob | Unparsable | NoID | Parsed(job: Job)

  datatype RepoFile = RepoFile(name: string, content: ParsedFile)

  /** The jobs the repository has an opinion about: those parsed, selected or not. */
  function ParsedIDs(files: seq<RepoFile>): set<string> {
    set f | f in files && f.content.Parsed? && f.content.job.id != "" :: f.content.job.id
  }

  predicate Selects(cfg: Config, glob: string -> bool, jobID: string, meta: map<string, string>) {
    glob(jobID) || Managed(cfg, meta)
  }

  /** A file that defines a job the engine watches. */
  predicate Wanted(cfg: Config, glob: string -> bool, f: RepoFile) {
    f.content.Parsed? && f.content.job.id != "" && Selects(cfg, glob, f.content.job.id, MetaOf(f.content.job))
  }

  /** A selected job's entry comes from a file that defines it. */
  ghost predicate EntryOf(cfg: Config, glob: string -> bool, files: seq<RepoFile>, e: Entry) {
    exists f :: f in files && Wanted(cfg, glob, f) && e == Entry(f.content.job, f.name, glob(f.content.job.id))
  }

  /** The selected jobs' entries. Of several files with one job the last one counts. */
  function EntriesOf(cfg: Config, glob: string -> bool, files: seq<RepoFile>): map<string, Entry> {
    if files == [] then map[]
    else
      var entries, f := EntriesOf(cfg, glob, files[..|files| - 1]), files[|files| - 1];
      if Wanted(cfg, glob, f) then entries[f.content.job.id := Entry(f.content.job, f.name, glob(f.content.job.id))]
      else entries
  }

  /** There is an entry for exactly the jobs some file defines and the engine watches, from such a file. */
  lemma {:induction false} EntriesMean(cfg: Config, glob: string -> bool, files: seq<RepoFile>)
    ensures var entries := EntriesOf(cfg, glob, files);
            entries.Keys <= ParsedIDs(files)
            && (forall id :: id in entries ==> entries[id].job.id == id && EntryOf(cfg, glob, files, entries[id]))
            && forall f :: f in files && Wanted(cfg, glob, f) ==> f.content.job.id in entries
  {
    if files != [] {
      var front, f := files[..|files| - 1], files[|files| - 1];
      assert files == front + [f];
      EntriesMean(cfg, glob, front);
      var before, after := EntriesOf(cfg, glob, front), EntriesOf(cfg, glob, files);
      forall id | id in after ensures after[id].job.id == id && EntryOf(cfg, glob, files, after[id]) {
        if !(Wanted(cfg, glob, f) && f.content.job.id == id) {
          var g :| g in front && Wanted(cfg, glob, g) && before[id] == Entry(g.content.job, g.name, glob(g.content.job.id));
          assert g in files;
        }
      }
    }
  }

  /** Parses the files. */
  method ParseCandidates(cfg: Config, glob: string -> bool, files: seq<RepoFile>)
      returns (entries: map<string, Entry>, parsed: set<string>)
    ensures parsed == ParsedIDs(files) && entries == EntriesOf(cfg, glob, files)
  {
    entries, parsed := map[], {};
    for i := 0 to |files|
      invariant parsed == ParsedIDs(files[..i]) && entries == EntriesOf(cfg, glob, files[..i])
    {
      var f := files[i];
      assert files[..i + 1] == files[..i] + [f] && files[..i + 1][..i] == files[..i];
      if !f.content.Parsed? || f.content.job.id == "" {
        continue;
      }
      var job := f.content.job;
      parsed := parsed + {job.id};
      if !glob(job.id) && !Managed(cfg, MetaOf(job)) {
        continue;
      }
      entries := entries[job.id := Entry(job, f.name, glob(job.id))];
    }
    assert files[..|files|] == files;
  }

  // ---- What Nomad has ----

  // A job as the job list shows it.
  datatype Stub = Stub(id: string, status: string, meta: map<string, string>)

  /** A live job the engine watches that no parsed file defines. */
  predicate IsOrphan(cfg: Config, glob: string -> bool, parsed: set<string>, j: Stub) {
    (cfg.includeDeadJobs || j.status != "dead") && j.id !in parsed && Selects(cfg, glob, j.id, j.meta)
  }

  datatype Orphan = Orphan(id: string, action: ApplyAction)

  function OrphansOf(cfg: Config, glob: string -> bool, parsed: set<string>, frozen: string -> bool,
                     graceElapsed: string -> bool, jobs: seq<Stub>): seq<Orphan> {
    if jobs == [] then []
    else
      var j := jobs[|jobs| - 1];
      OrphansOf(cfg, glob, parsed, frozen, graceElapsed, jobs[..|jobs| - 1])
      + if IsOrphan(cfg, glob, parsed, j) then [Orphan(j.id, OrphanAction(cfg, frozen, graceElapsed, j))] else []
  }

  /** Only a job with the opt-in tag may be deregistered; one selected by name alone is only observed. */
  function OrphanAction(cfg: Config, frozen: string -> bool, graceElapsed: string -> bool, j: Stub): ApplyAction {
    if Managed(cfg, j.meta) then DecideDeregister(cfg, j.meta, frozen(j.id), graceElapsed(j.id)) else ObservationOnly
  }

  /** The second detection loop: over the jobs Nomad lists. */
  method FindOrphans(cfg: Config, glob: string -> bool, parsed: set<string>, frozen: string -> bool,
                     graceElapsed: string -> bool, jobs: seq<Stub>) returns (orphans: seq<Orphan>)
    ensures orphans == OrphansOf(cfg, glob, parsed, frozen, graceElapsed, jobs)
  {
    orphans := [];
    for i := 0 to |jobs|
      invariant orphans == OrphansOf(cfg, glob, parsed, frozen, graceElapsed, jobs[..i])
    {
      var j := jobs[i];
      assert jobs[..i + 1][..i] == jobs[..i];
      if !cfg.includeDeadJobs && j.status == "dead" {
        continue;
      }
      if j.id in parsed {
        continue;
      }
      if !glob(j.id) && !Managed(cfg, j.meta) {
        continue;
      }
      var action := ObservationOnly;
      if Managed(cfg, j.meta) {
        action := DecideDeregister(cfg, j.meta, frozen(j.id), graceElapsed(j.id));
      }
      orphans := orphans + [Orphan(j.id, action)];
    }
    assert jobs[..|jobs|] == jobs;
  }

  /** Each listed job the engine watches and no parsed file defines is an orphan, with the action its own tags
      call for, and nothing else is. */
  lemma {:induction false} OrphanSource(cfg: Config, glob: string -> bool, parsed: set<string>, frozen: string -> bool,
                                        graceElapsed: string -> bool, jobs: seq<Stub>, o: Orphan)
    ensures o in OrphansOf(cfg, glob, parsed, frozen, graceElapsed, jobs)
            <==> exists j :: j in jobs && j.id == o.id && IsOrphan(cfg, glob, parsed, j)
                             && o.action == OrphanAction(cfg, frozen, graceElapsed, j)
  {
    hide IsOrphan;
    hide OrphanAction;
    if jobs != [] {
      var front, j := jobs[..|jobs| - 1], jobs[|jobs| - 1];
      assert jobs == front + [j];
      OrphanSource(cfg, glob, parsed, frozen, graceElapsed, front, o);
    }
  }

  /** "In the repository" means parsed: a file that stops parsing makes its job an orphan as if it had
      been deleted, unless another file still defines the job. */
  lemma UnparsableIsDeleted(files: seq<RepoFile>, i: nat, broken: ParsedFile)
    requires i < |files| && files[i].content.Parsed? && !broken.Parsed?
    ensures ParsedIDs(files[i := files[i].(content := broken)]) == ParsedIDs(files[..i] + files[i + 1..])
    ensures files[i].content.job.id in ParsedIDs(files[i := files[i].(content := broken)])
            <==> exists k :: 0 <= k < |files| && k != i && files[k].content.Parsed? && files[k].content.job.id != ""
                             && files[k].content.job.id == files[i].content.job.id
  {
    var after, without := files[i := files[i].(content := broken)], files[..i] + files[i + 1..];
    forall f: RepoFile | f.content.Parsed? ensures f in after <==> f in without {
      if f in after {
        var k :| 0 <= k < |after| && after[k] == f;
        assert k < i ==> without[k] == f;
        assert k > i ==> without[k - 1] == f;
      }
      if f in without {
        var k :| 0 <= k < |without| && without[k] == f;
        assert k < i ==> after[k] == f;
        assert k >= i ==> after[k + 1] == f;
      }
    }
    if k :| 0 <= k < |files| && k != i && files[k].content.Parsed? && files[k].content.job.id != ""
            && files[k].content.job.id == files[i].content.job.id {
      assert after[k] == files[k] && after[k] in after;
    }
  }

  // ---- Since when a drift has been seen ----

  /** What a cycle leaves: the drifts it saw, each with the time it was first seen. */
  function Tracked(firstSeen: map<string, int>, keys: set<string>, now: int): map<string, int> {
    map k | k in keys :: if k in firstSeen then firstSeen[k] else now
  }

  class DriftTracker {
    var firstSeen: map<string, int>

    constructor ()
      ensures firstSeen == map[]
    {
      firstSeen := map[];
    }

    /** Publishes a cycle: drifts that are gone are forgotten, new ones enter with the time of the
        cycle. Returns the jobs that are no longer orphaned. */
    method CommitResults(keys: set<string>, now: int) returns (noLongerOrphaned: set<string>)
      modifies this
      ensures firstSeen == Tracked(old(firstSeen), keys, now)
      ensures noLongerOrphaned == Returned(old(firstSeen), keys)
    {
      hide OrphanJobFromDriftKey;
      noLongerOrphaned := Forget(keys);
      KeptThenTracked(old(firstSeen), keys, now);
      Enter(keys, now);
    }

    /** Drops the drifts a cycle no longer saw. */
    method Forget(keys: set<string>) returns (noLongerOrphaned: set<string>)
      modifies this
      ensures firstSeen == Kept(old(firstSeen), keys)
      ensures noLongerOrphaned == Returned(old(firstSeen), keys)
    {
      hide OrphanJobFromDriftKey;
      hide Kept;
      hide Gone;
      ghost var before := firstSeen;
      noLongerOrphaned := {};
      var left := firstSeen.Keys;
      ghost var seen: set<string> := {};
      NothingForgotten(firstSeen, keys);
      while left != {}
        invariant left + seen == before.Keys && left !! seen
        invariant firstSeen == Kept(before, keys + left)
        invariant noLongerOrphaned == Gone(seen, keys)
        decreases |left|
      {
        var k :| k in left;
        GoneMore(seen, keys, k);
        KeptLess(before, keys, left, k);
        if k !in keys {
          var orphan := OrphanJobFromDriftKey(k);
          if orphan.Some? {
            noLongerOrphaned := noLongerOrphaned + {orphan.value};
          }
          firstSeen := firstSeen - {k};
        }
        left, seen := left - {k}, seen + {k};
      }
      assert seen == before.Keys && keys + {} == keys;
    }

    /** New drifts enter with the time of the cycle. */
    method Enter(keys: set<string>, now: int)
      requires firstSeen.Keys <= keys
      modifies this
      ensures firstSeen == Tracked(old(firstSeen), keys, now)
    {
      var left := keys;
      while left != {}
        invariant left <= keys
        invariant firstSeen == Tracked(old(firstSeen), old(firstSeen).Keys + (keys - left), now)
        decreases |left|
      {
        var k :| k in left;
        if k !in firstSeen {
          firstSeen := firstSeen[k := now];
        }
        left := left - {k};
      }
      assert old(firstSeen).Keys + (keys - {}) == keys;
    }
  }

  /** What is left of the first sightings. */
  function Kept(firstSeen: map<string, int>, keys: set<string>): map<string, int> {
    map k | k in firstSeen && k in keys :: firstSeen[k]
  }

  lemma KeptLess(firstSeen: map<string, int>, keys: set<string>, left: set<string>, k: string)
    requires k in left
    ensures Kept(firstSeen, keys + (left - {k}))
            == if k in keys then Kept(firstSeen, keys + left) else Kept(firstSeen, keys + left) - {k}
  {
    assert k in keys ==> keys + (left - {k}) == keys + left;
  }

  lemma NothingForgotten(firstSeen: map<string, int>, keys: set<string>)
    ensures Kept(firstSeen, keys + firstSeen.Keys) == firstSeen && Gone({}, keys) == {}
  {
  }

  lemma KeptThenTracked(firstSeen: map<string, int>, keys: set<string>, now: int)
    ensures Kept(firstSeen, keys).Keys <= keys
    ensures Tracked(Kept(firstSeen, keys), keys, now) == Tracked(firstSeen, keys, now)
  {
  }

  /** The orphans among drifts that are no longer seen. */
  function Gone(drifts: set<string>, keys: set<string>): set<string> {
    set k | k in drifts && k !in keys && OrphanJobFromDriftKey(k).Some? :: OrphanJobFromDriftKey(k).value
  }

  lemma GoneMore(drifts: set<string>, keys: set<string>, k: string)
    ensures Gone(drifts + {k}, keys)
            == Gone(drifts, keys) + if k !in keys && OrphanJobFromDriftKey(k).Some? then {OrphanJobFromDriftKey(k).value} else {}
  {
    hide OrphanJobFromDriftKey;
  }

  // ---- Over a whole run ----

  // What happens to the two clocks of an orphan: freeze reads, thaws and purges, committed cycles.
  datatype Moment =
    | FreezesRead(time: int, inForce: set<string>)
    | Thawed(time: int, jobID: string)
    | Committed(time: int, keys: set<string>)

  datatype Watch = Watch(firstSeen: map<string, int>, clock: Clock)

  /** The jobs a commit finds no longer orphaned. */
  function Returned(firstSeen: map<string, int>, keys: set<string>): set<string> {
    Gone(firstSeen.Keys, keys)
  }

  function AfterMoment(w: Watch, m: Moment): Watch {
    match m
    case FreezesRead(time, inForce) => w.(clock := AfterRead(w.clock, inForce, time))
    case Thawed(_, jobID) => w.(clock := AfterClear(w.clock, jobID))
    case Committed(time, keys) =>
      Watch(Tracked(w.firstSeen, keys, time), w.clock.(accrued := w.clock.accrued - Returned(w.firstSeen, keys)))
  }

  function AfterRun(run: seq<Moment>): Watch {
    if run == [] then Watch(map[], GraceClock.Clock(map[], map[]))
    else AfterMoment(AfterRun(run[..|run| - 1]), run[|run| - 1])
  }

  ghost predicate InOrder(run: seq<Moment>) {
    forall i, j :: 0 <= i < j < |run| ==> run[i].time <= run[j].time
  }

  /** Every cycle committed from this one on saw the drift. */
  ghost predicate SeenSince(run: seq<Moment>, r: nat, k: string) {
    forall i :: r <= i < |run| && run[i].Committed? ==> k in run[i].keys
  }

  /** No cycle was committed in between. */
  ghost predicate NoCycleBetween(run: seq<Moment>, q: nat, r: nat) {
    forall m :: q < m < r && m < |run| ==> !run[m].Committed?
  }

  /** The cycle started the unbroken run of sightings that lasts until now. */
  ghost predicate StartsRun(run: seq<Moment>, r: nat, k: string) {
    r < |run| && run[r].Committed? && SeenSince(run, r, k)
    && forall q :: 0 <= q < r && run[q].Committed? && NoCycleBetween(run, q, r) ==> k !in run[q].keys
  }

  /** The last committed cycle saw the drift. */
  ghost predicate SeenLast(run: seq<Moment>, k: string) {
    exists q :: 0 <= q < |run| && run[q].Committed? && NoCycleBetween(run, q, |run|) && k in run[q].keys
  }

  lemma {:induction false} TrackedIsSeenLast(run: seq<Moment>, k: string)
    ensures k in AfterRun(run).firstSeen <==> SeenLast(run, k)
  {
    if run != [] {
      var front, last := run[..|run| - 1], run[|run| - 1];
      TrackedIsSeenLast(front, k);
      if last.Committed? {
        assert NoCycleBetween(run, |run| - 1, |run|);
        if SeenLast(run, k) {
          var q :| 0 <= q < |run| && run[q].Committed? && NoCycleBetween(run, q, |run|) && k in run[q].keys;
          assert q == |run| - 1;
        }
      } else {
        if SeenLast(front, k) {
          var q :| 0 <= q < |front| && front[q].Committed? && NoCycleBetween(front, q, |front|) && k in front[q].keys;
          assert run[q] == front[q];
          assert NoCycleBetween(run, q, |run|) by {
            forall m | q < m < |run| ensures !run[m].Committed? {
              assert m < |front| ==> run[m] == front[m];
            }
          }
        }
        if SeenLast(run, k) {
          var q :| 0 <= q < |run| && run[q].Committed? && NoCycleBetween(run, q, |run|) && k in run[q].keys;
          assert front[q] == run[q];
          assert NoCycleBetween(front, q, |front|) by {
            forall m | q < m < |front| ensures !front[m].Committed? {
              assert run[m] == front[m];
            }
          }
        }
      }
    }
  }

  /** A run of sightings that goes on. */
  lemma RunGoesOn(run: seq<Moment>, r: nat, k: string)
    requires run != [] && r < |run| - 1 && StartsRun(run[..|run| - 1], r, k)
    requires run[|run| - 1].Committed? ==> k in run[|run| - 1].keys
    ensures StartsRun(run, r, k)
  {
    var front := run[..|run| - 1];
    assert run[r] == front[r];
    forall i | r <= i < |run| && run[i].Committed? ensures k in run[i].keys {
      assert i < |front| ==> front[i] == run[i];
    }
    forall q | 0 <= q < r && run[q].Committed? && NoCycleBetween(run, q, r) ensures k !in run[q].keys {
      assert front[q] == run[q];
      assert NoCycleBetween(front, q, r) by {
        forall m | q < m < r && m < |front| ensures !front[m].Committed? {
          assert run[m] == front[m];
        }
      }
    }
  }

  /** The time a drift was first seen is the time of the cycle that started the current unbroken run of
      sightings; a drift the last cycle did not see has none. */
  lemma {:induction false} FirstSeenIsRunStart(run: seq<Moment>, k: string)
    ensures k in AfterRun(run).firstSeen ==>
              exists r: nat :: StartsRun(run, r, k) && AfterRun(run).firstSeen[k] == run[r].time
    ensures k in AfterRun(run).firstSeen <==> exists r: nat :: StartsRun(run, r, k)
  {
    TrackedIsSeenLast(run, k);
    if run != [] {
      var front, last := run[..|run| - 1], run[|run| - 1];
      FirstSeenIsRunStart(front, k);
      TrackedIsSeenLast(front, k);
      var before := AfterRun(front).firstSeen;
      if k in AfterRun(run).firstSeen {
        if k in before {
          var r: nat :| StartsRun(front, r, k) && before[k] == front[r].time;
          RunGoesOn(run, r, k);
        } else {
          NewRun(run, k);
        }
      }
      if r: nat :| StartsRun(run, r, k) {
        StartedIsSeen(run, r, k);
      }
    }
  }

  lemma NewRun(run: seq<Moment>, k: string)
    requires run != [] && run[|run| - 1].Committed? && k in run[|run| - 1].keys && !SeenLast(run[..|run| - 1], k)
    ensures StartsRun(run, |run| - 1, k)
  {
    var front := run[..|run| - 1];
    forall q | 0 <= q < |run| - 1 && run[q].Committed? && NoCycleBetween(run, q, |run| - 1) ensures k !in run[q].keys {
      assert front[q] == run[q];
      assert NoCycleBetween(front, q, |front|) by {
        forall m | q < m < |front| ensures !front[m].Committed? {
          assert run[m] == front[m];
        }
      }
    }
  }

  lemma {:induction false} StartedIsSeen(run: seq<Moment>, r: nat, k: string)
    requires r < |run| && run[r].Committed? && SeenSince(run, r, k)
    ensures SeenLast(run, k)
    decreases |run| - r
  {
    if NoCycleBetween(run, r, |run|) {
      assert k in run[r].keys;
    } else {
      var m :| r < m < |run| && run[m].Committed?;
      StartedIsSeen(run, m, k);
    }
  }

  lemma {:induction false} LastCycleBefore(run: seq<Moment>, r1: nat, r2: nat) returns (q: nat)
    requires r1 < r2 <= |run| && run[r1].Committed?
    ensures r1 <= q < r2 && run[q].Committed? && NoCycleBetween(run, q, r2)
    decreases r2 - r1
  {
    if NoCycleBetween(run, r1, r2) {
      return r1;
    }
    var m :| r1 < m < r2 && m < |run| && run[m].Committed?;
    q := LastCycleBefore(run, m, r2);
  }

  lemma LaterRunIsOlder(run: seq<Moment>, r1: nat, r2: nat, k: string)
    requires StartsRun(run, r1, k) && StartsRun(run, r2, k)
    ensures r2 <= r1
  {
    if r1 < r2 {
      var q := LastCycleBefore(run, r1, r2);
      assert false;
    }
  }

  /** An unbroken run of sightings has one start, and its time is the time first seen. */
  lemma OneRunStart(run: seq<Moment>, r: nat, k: string)
    requires StartsRun(run, r, k)
    ensures forall r': nat :: StartsRun(run, r', k) ==> r' == r
    ensures k in AfterRun(run).firstSeen && AfterRun(run).firstSeen[k] == run[r].time
  {
    forall r': nat | StartsRun(run, r', k) ensures r' == r {
      LaterRunIsOlder(run, r, r', k);
      LaterRunIsOlder(run, r', r, k);
    }
    FirstSeenIsRunStart(run, k);
  }

  // ---- When a deregistration may be queued ----

  ghost predicate ClockSane(c: Clock, last: int) {
    (forall j :: j in c.heldSince ==> c.heldSince[j] <= last) && forall j :: j in c.accrued ==> c.accrued[j] >= 0
  }

  /** With a clock that does not run backwards, frozen time is never negative. */
  lemma {:induction false} OffsetNotNegative(run: seq<Moment>, jobID: string, now: int)
    requires InOrder(run) && forall i :: 0 <= i < |run| ==> run[i].time <= now
    ensures ClockSane(AfterRun(run).clock, now)
    ensures Offset(AfterRun(run).clock, jobID, now) >= 0
  {
    if run != [] {
      var front, last := run[..|run| - 1], run[|run| - 1];
      assert forall i :: 0 <= i < |front| ==> front[i] == run[i];
      OffsetNotNegative(front, jobID, last.time);
    }
  }

  lemma ReturnedExactly(firstSeen: map<string, int>, keys: set<string>, jobID: string)
    ensures jobID in Returned(firstSeen, keys)
            <==> DriftKey(jobID, MissingFromHCL) in firstSeen && DriftKey(jobID, MissingFromHCL) !in keys
  {
    DriftKeyRoundTrip(jobID, MissingFromHCL);
    forall k | OrphanJobFromDriftKey(k) == Some(jobID) ensures k == DriftKey(jobID, MissingFromHCL) {
      var suffix := "\0" + DiffTypeText(MissingFromHCL);
      assert k == k[..|k| - |suffix|] + suffix;
    }
    hide OrphanJobFromDriftKey;
  }

  /** The frozen time of the job is forgotten here: it was thawed or its freeze purged, or a commit found it back
      in the repository. */
  ghost predicate Forgets(run: seq<Moment>, i: nat, jobID: string)
    requires i < |run|
  {
    (run[i].Thawed? && run[i].jobID == jobID)
    || (run[i].Committed? && SeenLast(run[..i], DriftKey(jobID, MissingFromHCL)) && DriftKey(jobID, MissingFromHCL) !in run[i].keys)
  }

  /** Frozen time counts from here. */
  ghost predicate CountsFrom(run: seq<Moment>, start: nat, jobID: string) {
    start <= |run| && (start > 0 ==> Forgets(run, start - 1, jobID))
    && forall i :: start <= i < |run| ==> !Forgets(run, i, jobID)
  }

  /** When the latest read saw the job frozen, if it did. */
  function LatestFrozen(run: seq<Moment>, jobID: string): Option<int> {
    if run == [] then None
    else
      var last := run[|run| - 1];
      if last.FreezesRead? then (if jobID in last.inForce then Some(last.time) else None)
      else LatestFrozen(run[..|run| - 1], jobID)
  }

  /** The time between reads in a row that both saw the job frozen, the later one no earlier than the start. */
  function FrozenFrom(run: seq<Moment>, start: nat, jobID: string): int {
    if |run| <= start then 0
    else
      var front, last := run[..|run| - 1], run[|run| - 1];
      FrozenFrom(front, start, jobID)
      + if last.FreezesRead? && jobID in last.inForce && LatestFrozen(front, jobID).Some?
        then last.time - LatestFrozen(front, jobID).value else 0
  }

  lemma FrontCounts(run: seq<Moment>, start: nat, jobID: string)
    requires run != [] && start < |run| && CountsFrom(run, start, jobID)
    ensures CountsFrom(run[..|run| - 1], start, jobID)
  {
    var front := run[..|run| - 1];
    forall i | 0 <= i < |front| ensures Forgets(front, i, jobID) <==> Forgets(run, i, jobID) {
      assert front[..i] == run[..i];
    }
  }

  lemma ForgottenByNow(run: seq<Moment>, jobID: string)
    requires run != [] && !run[|run| - 1].FreezesRead?
    ensures At(AfterRun(run).clock.accrued, jobID)
            == if Forgets(run, |run| - 1, jobID) then 0 else At(AfterRun(run[..|run| - 1]).clock.accrued, jobID)
  {
    var front := run[..|run| - 1];
    TrackedIsSeenLast(front, DriftKey(jobID, MissingFromHCL));
    if run[|run| - 1].Committed? {
      ReturnedExactly(AfterRun(front).firstSeen, run[|run| - 1].keys, jobID);
    }
    hide SeenLast;
    hide Returned;
    hide DriftKey;
  }

  /** Over every run the time deducted from an orphan's grace period is what reads saw it frozen since its
      frozen time was last forgotten: by a thaw, a purge or its return to the repository. */
  lemma OffsetExactly(run: seq<Moment>, start: nat, jobID: string, now: int)
    requires CountsFrom(run, start, jobID)
    ensures Offset(AfterRun(run).clock, jobID, now)
            == FrozenFrom(run, start, jobID) + var latest := LatestFrozen(run, jobID); if latest.Some? then now - latest.value else 0
  {
    HeldExactly(run, jobID);
    AccruedExactly(run, start, jobID);
  }

  lemma {:induction false} AccruedExactly(run: seq<Moment>, start: nat, jobID: string)
    requires CountsFrom(run, start, jobID)
    ensures At(AfterRun(run).clock.accrued, jobID) == FrozenFrom(run, start, jobID)
  {
    if |run| == start {
      if start > 0 {
        ForgottenByNow(run, jobID);
      }
    } else {
      FrontCounts(run, start, jobID);
      AccruedExactly(run[..|run| - 1], start, jobID);
      HeldExactly(run[..|run| - 1], jobID);
      if !run[|run| - 1].FreezesRead? {
        ForgottenByNow(run, jobID);
      }
    }
  }

  lemma {:induction false} HeldExactly(run: seq<Moment>, jobID: string)
    ensures var c := AfterRun(run).clock;
            (jobID in c.heldSince <==> LatestFrozen(run, jobID).Some?)
            && (jobID in c.heldSince ==> Some(c.heldSince[jobID]) == LatestFrozen(run, jobID))
  {
    if run != [] {
      HeldExactly(run[..|run| - 1], jobID);
    }
  }

  lemma {:induction false} CountsFromSomewhere(run: seq<Moment>, jobID: string) returns (start: nat)
    ensures CountsFrom(run, start, jobID)
  {
    if run == [] || Forgets(run, |run| - 1, jobID) {
      return |run|;
    }
    var front := run[..|run| - 1];
    start := CountsFromSomewhere(front, jobID);
    forall i | 0 <= i < |front| ensures Forgets(front, i, jobID) <==> Forgets(run, i, jobID) {
      assert front[..i] == run[..i];
    }
  }

  /** The grace period as a decision sees it. */
  predicate GraceOver(w: Watch, grace: int, now: int, jobID: string) {
    var k := DriftKey(jobID, MissingFromHCL);
    GraceElapsed(if k in w.firstSeen then Some(w.firstSeen[k]) else None, w.clock, jobID, now, grace)
  }

  /** The grace period is over: the cycle that started the job's unbroken run of sightings as an orphan is that
      long ago, not counting what reads saw it frozen since its frozen time was last forgotten. */
  ghost predicate GraceSpent(run: seq<Moment>, grace: int, now: int, jobID: string) {
    exists r: nat, start: nat ::
      StartsRun(run, r, DriftKey(jobID, MissingFromHCL)) && CountsFrom(run, start, jobID)
      && var latest := LatestFrozen(run, jobID);
         now - run[r].time - FrozenFrom(run, start, jobID) - (if latest.Some? then now - latest.value else 0) >= grace
  }

  lemma GraceExactly(run: seq<Moment>, grace: int, now: int, jobID: string)
    ensures GraceOver(AfterRun(run), grace, now, jobID) <==> GraceSpent(run, grace, now, jobID)
  {
    var k := DriftKey(jobID, MissingFromHCL);
    FirstSeenIsRunStart(run, k);
    var start := CountsFromSomewhere(run, jobID);
    OffsetExactly(run, start, jobID, now);
    if r: nat :| StartsRun(run, r, k) {
      OneRunStart(run, r, k);
    }
    forall other: nat | CountsFrom(run, other, jobID) ensures FrozenFrom(run, other, jobID) == FrozenFrom(run, start, jobID) {
      OffsetExactly(run, other, jobID, now);
    }
    hide StartsRun;
    hide CountsFrom;
    hide DriftKey;
  }

  /** A removal is queued exactly for a listed job that is live, or dead with those included, tagged as managed,
      with a full policy by its tag or by default, and parsed from no file, while deregistration is on, the
      job is not frozen and its grace period is over. */
  lemma RemovalQueuedExactly(cfg: Config, glob: string -> bool, parsed: set<string>, frozen: string -> bool,
                             run: seq<Moment>, grace: int, now: int, jobs: seq<Stub>, id: string)
    ensures Orphan(id, DeregisterQueued)
              in OrphansOf(cfg, glob, parsed, frozen, jobID => GraceOver(AfterRun(run), grace, now, jobID), jobs)
            <==> cfg.enableDeregister && id !in parsed && !frozen(id) && GraceSpent(run, grace, now, id)
                 && exists j :: j in jobs && j.id == id && KeyIs(cfg, j.meta, "_managed", "true") && FullByMeta(cfg, j.meta)
                                && (cfg.includeDeadJobs || j.status != "dead")
  {
    var elapsed := jobID => GraceOver(AfterRun(run), grace, now, jobID);
    OrphanSource(cfg, glob, parsed, frozen, elapsed, jobs, Orphan(id, DeregisterQueued));
    GraceExactly(run, grace, now, id);
    hide GraceSpent;
    hide GraceOver;
    forall j | j in jobs && j.id == id
      ensures IsOrphan(cfg, glob, parsed, j) && OrphanAction(cfg, frozen, elapsed, j) == DeregisterQueued
              <==> cfg.enableDeregister && id !in parsed && !frozen(id) && GraceSpent(run, grace, now, id)
                   && KeyIs(cfg, j.meta, "_managed", "true") && FullByMeta(cfg, j.meta) && (cfg.includeDeadJobs || j.status != "dead")
    {
      ManagedExactly(cfg, j.meta);
      RemovalExactly(cfg, j.meta, frozen(id), elapsed(id));
      hide KeyIs;
      hide FullByMeta;
      hide DecideDeregister;
    }
    hide IsOrphan;
    hide OrphanAction;
  }

  /** So a removal needs unbroken orphanhood: with a clock that does not run backwards, every cycle committed since
      one at least the grace period ago saw the job orphaned. In particular it is never queued in the first
      cycle that sees it, however long the grace period. */
  lemma RemovalNeedsUnbrokenOrphanhood(run: seq<Moment>, grace: int, now: int, jobID: string)
    requires InOrder(run) && forall i :: 0 <= i < |run| ==> run[i].time <= now
    requires GraceSpent(run, grace, now, jobID)
    ensures exists r: nat :: StartsRun(run, r, DriftKey(jobID, MissingFromHCL)) && now - run[r].time >= grace
  {
    GraceExactly(run, grace, now, jobID);
    FirstSeenIsRunStart(run, DriftKey(jobID, MissingFromHCL));
    OffsetNotNegative(run, jobID, now);
  }
}
