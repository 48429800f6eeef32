/** How time spent frozen is kept out of an orphaned job's grace period. */
module GraceClock {
  import opened Wrappers

  // When each frozen job was last seen frozen, and how much frozen time was accrued so far.
  datatype Clock = Clock(heldSince: map<string, int>, accrued: map<string, int>)

  function At(m: map<string, int>, jobID: string): int {
    if jobID in m then m[jobID] else 0
  }

  /** A successful read of the freeze records: a job frozen in this read and the one before it was
      frozen in between. */
  function AfterRead(c: Clock, inForce: set<string>, now: int): Clock {
    var more := map j | j in inForce && j in c.heldSince :: At(c.accrued, j) + (now - c.heldSince[j]);
    Clock(map j | j in inForce :: now, c.accrued + more)
  }

  function AfterClear(c: Clock, jobID: string): Clock {
    c.(accrued := c.accrued - {jobID})
  }

  /** How long a job has spent frozen. */
  function Offset(c: Clock, jobID: string, now: int): int {
    At(c.accrued, jobID) + if jobID in c.heldSince then now - c.heldSince[jobID] else 0
  }

  /** How far an orphan is into its grace period. */
  function GraceAge(firstSeen: int, c: Clock, jobID: string, now: int): int {
    now - firstSeen - Offset(c, jobID, now)
  }

  predicate GraceElapsed(firstSeen: Option<int>, c: Clock, jobID: string, now: int, grace: int) {
    firstSeen.Some? && GraceAge(firstSeen.value, c, jobID, now) >= grace
  }

  // ---- While a freeze lasts, and when it ends ----

  /** While a job stays frozen, from read to read, its grace age stands still. */
  lemma FrozenStandsStill(firstSeen: int, c: Clock, jobID: string, inForce: set<string>, readAt: int, before: int, after: int)
    requires jobID in c.heldSince && jobID in inForce
    ensures GraceAge(firstSeen, AfterRead(c, inForce, readAt), jobID, after) == GraceAge(firstSeen, c, jobID, before)
  {
  }

  /** When a freeze is seen to have ended, by expiry or by hand, the age jumps by exactly the time
      since it was last seen, and runs on from there. */
  lemma FreezeEnds(firstSeen: int, c: Clock, jobID: string, inForce: set<string>, readAt: int, after: int)
    requires jobID in c.heldSince && jobID !in inForce
    ensures GraceAge(firstSeen, AfterRead(c, inForce, readAt), jobID, after)
            == GraceAge(firstSeen, c, jobID, readAt) + (readAt - c.heldSince[jobID]) + (after - readAt)
  {
  }

  /** A thaw through the API, or the purge of an expired record, first forgets the accrued time and
      then reads: from then on all the time the job was frozen counts towards its grace period. */
  lemma ThawSpendsFrozenTime(firstSeen: int, c: Clock, jobID: string, inForce: set<string>, readAt: int, after: int)
    requires jobID !in inForce
    ensures GraceAge(firstSeen, AfterRead(AfterClear(c, jobID), inForce, readAt), jobID, after) == after - firstSeen
  {
  }

  // ---- Over a whole run of reads ----

  datatype FreezeRead = FreezeRead(time: int, inForce: set<string>)

  function AfterReads(run: seq<FreezeRead>): Clock {
    if run == [] then Clock(map[], map[])
    else AfterRead(AfterReads(run[..|run| - 1]), run[|run| - 1].inForce, run[|run| - 1].time)
  }

  predicate FrozenIn(run: seq<FreezeRead>, i: nat, jobID: string)
    requires i < |run|
  {
    jobID in run[i].inForce
  }

  /** Time between consecutive reads that both saw the job frozen. */
  function SeenFrozen(run: seq<FreezeRead>, jobID: string): int {
    if |run| < 2 then 0
    else
      SeenFrozen(run[..|run| - 1], jobID)
      + if FrozenIn(run, |run| - 2, jobID) && FrozenIn(run, |run| - 1, jobID)
        then run[|run| - 1].time - run[|run| - 2].time else 0
  }

  /** Time between a read that saw the job frozen for the last time and the next, which did not: the
      freeze ended somewhere in it. */
  function EndGaps(run: seq<FreezeRead>, jobID: string): int {
    if |run| < 2 then 0
    else
      EndGaps(run[..|run| - 1], jobID)
      + if FrozenIn(run, |run| - 2, jobID) && !FrozenIn(run, |run| - 1, jobID)
        then run[|run| - 1].time - run[|run| - 2].time else 0
  }

  /** Time from each read that did not see the job frozen to the next read. */
  function SeenFree(run: seq<FreezeRead>, jobID: string): int {
    if |run| < 2 then 0
    else
      SeenFree(run[..|run| - 1], jobID)
      + if !FrozenIn(run, |run| - 2, jobID) then run[|run| - 1].time - run[|run| - 2].time else 0
  }

  lemma {:induction false} ClockOfReads(run: seq<FreezeRead>, jobID: string)
    requires run != []
    ensures var c, last := AfterReads(run), run[|run| - 1];
            (jobID in c.heldSince <==> jobID in last.inForce)
            && (jobID in last.inForce ==> c.heldSince[jobID] == last.time)
            && At(c.accrued, jobID) == SeenFrozen(run, jobID)
  {
    if |run| > 1 {
      ClockOfReads(run[..|run| - 1], jobID);
    }
  }

  lemma {:induction false} TimeAddsUp(run: seq<FreezeRead>, jobID: string)
    requires run != []
    ensures run[|run| - 1].time - run[0].time == SeenFrozen(run, jobID) + EndGaps(run, jobID) + SeenFree(run, jobID)
  {
    if |run| > 1 {
      TimeAddsUp(run[..|run| - 1], jobID);
    }
  }

  lemma LaterFront(run: seq<FreezeRead>, p: nat)
    requires 1 <= p < |run|
    ensures run[p - 1..][..|run[p - 1..]| - 1] == run[..|run| - 1][p - 1..]
  {
  }

  lemma {:induction false} FrozenAddsUp(run: seq<FreezeRead>, jobID: string, p: nat)
    requires 1 <= p <= |run|
    ensures SeenFrozen(run, jobID) == SeenFrozen(run[..p], jobID) + SeenFrozen(run[p - 1..], jobID)
    decreases |run|
  {
    if p < |run| {
      var front, later := run[..|run| - 1], run[p - 1..];
      FrozenAddsUp(front, jobID, p);
      assert front[..p] == run[..p];
      LaterFront(run, p);
      assert later[|later| - 1] == run[|run| - 1] && later[|later| - 2] == run[|run| - 2];
    } else {
      assert run[..p] == run && |run[p - 1..]| == 1;
    }
  }

  /** Over any run of reads without a thaw or purge of the job, and whenever an orphan was first seen: seen
      from any read on, it is exactly as far into its grace period as the time since reads that saw it
      free, plus one gap between two reads for each freeze that ended, less the time from that read to
      the first sighting and less what it was seen frozen before. */
  lemma GraceAgeOverRun(run: seq<FreezeRead>, jobID: string, p: nat, firstSeen: int, now: int)
    requires 1 <= p <= |run|
    ensures var last, later := run[|run| - 1], run[p - 1..];
            GraceAge(firstSeen, AfterReads(run), jobID, now)
            == SeenFree(later, jobID) + EndGaps(later, jobID) + (if jobID in last.inForce then 0 else now - last.time)
               - (firstSeen - run[p - 1].time) - SeenFrozen(run[..p], jobID)
  {
    var later := run[p - 1..];
    ClockOfReads(run, jobID);
    FrozenAddsUp(run, jobID, p);
    TimeAddsUp(later, jobID);
    assert later[|later| - 1] == run[|run| - 1] && later[0] == run[p - 1];
  }

  lemma {:induction false} FrozenNotNegative(run: seq<FreezeRead>, jobID: string)
    requires forall i :: 0 <= i < |run| - 1 ==> run[i].time <= run[i + 1].time
    ensures SeenFrozen(run, jobID) >= 0
  {
    if |run| > 1 {
      var front := run[..|run| - 1];
      forall i | 0 <= i < |front| - 1 ensures front[i].time <= front[i + 1].time {
        assert run[i].time <= run[i + 1].time;
      }
      FrozenNotNegative(front, jobID);
      assert run[|run| - 2].time <= run[|run| - 2 + 1].time;
    }
  }

  /** The gaps: one per freeze, each at most the longest time between two reads. */
  function Ends(run: seq<FreezeRead>, jobID: string): nat {
    if |run| < 2 then 0
    else Ends(run[..|run| - 1], jobID)
         + if FrozenIn(run, |run| - 2, jobID) && !FrozenIn(run, |run| - 1, jobID) then 1 else 0
  }

  lemma {:induction false} GapsAreBounded(run: seq<FreezeRead>, jobID: string, longest: nat)
    requires forall i :: 0 <= i < |run| - 1 ==> run[i + 1].time - run[i].time <= longest
    ensures EndGaps(run, jobID) <= Ends(run, jobID) * longest
  {
    if |run| > 1 {
      var front := run[..|run| - 1];
      forall i | 0 <= i < |front| - 1 ensures front[i + 1].time - front[i].time <= longest {
        assert run[i + 1].time - run[i].time <= longest;
      }
      GapsAreBounded(front, jobID, longest);
      assert run[|run| - 2 + 1].time - run[|run| - 2].time <= longest;
      var n := Ends(front, jobID);
      assert (n + 1) * longest == n * longest + longest;
    }
  }

  /** So a freeze buys an orphan time without spending it: since the last read before it was first seen it
      is never further into its grace period than the time reads saw it free, and the longest interval
      between two reads for each freeze that ended. */
  lemma GraceAgeBound(run: seq<FreezeRead>, jobID: string, p: nat, firstSeen: int, now: int, longest: nat)
    requires 1 <= p <= |run| && run[p - 1].time <= firstSeen
    requires forall i :: 0 <= i < |run| - 1 ==> run[i].time <= run[i + 1].time
    requires forall i :: p - 1 <= i < |run| - 1 ==> run[i + 1].time - run[i].time <= longest
    ensures var last, later := run[|run| - 1], run[p - 1..];
            GraceAge(firstSeen, AfterReads(run), jobID, now)
            <= SeenFree(later, jobID) + Ends(later, jobID) * longest + (if jobID in last.inForce then 0 else now - last.time)
  {
    var before, later := run[..p], run[p - 1..];
    GraceAgeOverRun(run, jobID, p, firstSeen, now);
    forall i | 0 <= i < |before| - 1 ensures before[i].time <= before[i + 1].time {
      assert run[i].time <= run[i + 1].time;
    }
    FrozenNotNegative(before, jobID);
    forall i | 0 <= i < |later| - 1 ensures later[i + 1].time - later[i].time <= longest {
      assert later[i] == run[p - 1 + i] && later[i + 1] == run[(p - 1 + i) + 1];
    }
    GapsAreBounded(later, jobID, longest);
  }

  /** Seen from any start, what is deducted is all the time the job was seen frozen since the last thaw
      or return to the repository, also while it was no orphan yet: a job that was frozen and freed
      before it was orphaned starts its grace period in debt by that time. */
  lemma {:induction false} EarlierFreezesDelay(run: seq<FreezeRead>, jobID: string, firstSeen: int, now: int)
    requires run != []
    ensures GraceAge(firstSeen, AfterReads(run), jobID, now)
            == now - firstSeen - SeenFrozen(run, jobID) - if jobID in run[|run| - 1].inForce then now - run[|run| - 1].time else 0
    ensures jobID !in run[|run| - 1].inForce ==> GraceAge(firstSeen, AfterReads(run), jobID, firstSeen) == -SeenFrozen(run, jobID)
  {
    ClockOfReads(run, jobID);
  }
}
