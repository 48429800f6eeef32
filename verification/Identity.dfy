/** The keys the engine gives its records: update IDs, revert IDs and drift keys. */
module Identity {
  import opened Wrappers
  import opened Text

  function ShortCommit(commit: string): string {
    if |commit| > 7 then commit[..7] else commit
  }

  function UpdateID(jobID: string, commit: string): string {
    jobID + "/" + ShortCommit(commit)
  }

  function RevertUpdateID(jobID: string, failedVersion: nat): string {
    jobID + "/revert-" + Decimal(failedVersion)
  }

  /** Splitting at the last '/' is unambiguous. */
  lemma JoinInjective(a: string, x: string, b: string, y: string)
    requires '/' !in x && '/' !in y
    requires a + "/" + x == b + "/" + y
    ensures a == b && x == y
  {
    LastSegmentOf(a, x);
    LastSegmentOf(b, y);
    assert a == (a + "/" + x)[..|a|];
    assert b == (b + "/" + y)[..|b|];
  }

  /** An update ID stands for one job and one short commit. */
  lemma UpdateIDDetermines(job1: string, commit1: string, job2: string, commit2: string)
    requires '/' !in commit1 && '/' !in commit2
    ensures UpdateID(job1, commit1) == UpdateID(job2, commit2)
            <==> job1 == job2 && ShortCommit(commit1) == ShortCommit(commit2)
  {
    if UpdateID(job1, commit1) == UpdateID(job2, commit2) {
      JoinInjective(job1, ShortCommit(commit1), job2, ShortCommit(commit2));
    }
  }

  /** The hypothesis on commits is needed: with a '/' in a commit two jobs share an ID. */
  lemma SlashInCommitCollides()
    ensures UpdateID("a", "b/c") == UpdateID("a/b", "c")
  {
    assert "a" + "/" + "b/c" == "a/b" + "/" + "c";
  }

  /** A revert ID stands for one job and one failed version. */
  lemma RevertIDDetermines(job1: string, v1: nat, job2: string, v2: nat)
    ensures RevertUpdateID(job1, v1) == RevertUpdateID(job2, v2) <==> job1 == job2 && v1 == v2
  {
    if RevertUpdateID(job1, v1) == RevertUpdateID(job2, v2) {
      var x, y := "revert-" + Decimal(v1), "revert-" + Decimal(v2);
      assert job1 + "/revert-" + Decimal(v1) == job1 + "/" + x;
      assert job2 + "/revert-" + Decimal(v2) == job2 + "/" + y;
      JoinInjective(job1, x, job2, y);
      assert Decimal(v1) == x[7..] == y[7..] == Decimal(v2);
      DecimalInjective(v1, v2);
    }
  }

  /** No update ID is ever a revert ID, whatever '/' the job IDs and the commit contain: the last
      segment of an update ID has at most seven characters, that of a revert ID at least eight. */
  lemma UpdateIsNeverRevert(job1: string, commit: string, job2: string, v: nat)
    ensures UpdateID(job1, commit) != RevertUpdateID(job2, v)
  {
    LastSegmentOf(job1, ShortCommit(commit));
    var tail := "revert-" + Decimal(v);
    assert RevertUpdateID(job2, v) == job2 + "/" + tail;
    assert '/' !in "revert-";
    LastSegmentOf(job2, tail);
  }

  // How a job's repository definition and its live copy differ.
  datatype DiffType = Modified | MissingFromNomad | MissingFromHCL

  function DiffTypeText(t: DiffType): string {
    match t
    case Modified => "modified"
    case MissingFromNomad => "missing_from_nomad"
    case MissingFromHCL => "missing_from_hcl"
  }

  function DriftKey(jobID: string, t: DiffType): string {
    jobID + "\0" + DiffTypeText(t)
  }

  /** The job an orphan's drift key names, None for any other key. */
  function OrphanJobFromDriftKey(key: string): Option<string> {
    var suffix := "\0" + DiffTypeText(MissingFromHCL);
    if HasSuffix(key, suffix) then Some(key[..|key| - |suffix|]) else None
  }

  /** Reading a drift key back gives the job exactly for the orphan kind of drift,
      even when the job ID itself contains NUL or ends like a drift key. */
  lemma DriftKeyRoundTrip(jobID: string, t: DiffType)
    ensures OrphanJobFromDriftKey(DriftKey(jobID, t)) == if t.MissingFromHCL? then Some(jobID) else None
  {
    var key := DriftKey(jobID, t);
    var suffix := "\0" + DiffTypeText(MissingFromHCL);
    if t.MissingFromHCL? {
      assert key == jobID + suffix;
    } else {
      assert key[|key| - 1] == DiffTypeText(t)[|DiffTypeText(t)| - 1] != suffix[|suffix| - 1];
      if HasSuffix(key, suffix) {
        SuffixLast(key, suffix);
        assert false;
      }
    }
  }

  lemma DriftKeyDetermines(job1: string, t1: DiffType, job2: string, t2: DiffType)
    ensures DriftKey(job1, t1) == DriftKey(job2, t2) <==> job1 == job2 && t1 == t2
  {
    var k1, k2 := DriftKey(job1, t1), DriftKey(job2, t2);
    var x1, x2 := DiffTypeText(t1), DiffTypeText(t2);
    if k1 == k2 {
      assert k1[|k1| - 1] == x1[|x1| - 1] && k2[|k2| - 1] == x2[|x2| - 1];
      assert k1[|k1| - 3] == x1[|x1| - 3] && k2[|k2| - 3] == x2[|x2| - 3];
      assert t1 == t2;
      assert job1 == k1[..|job1|] && job2 == k2[..|job2|];
    }
  }
}
