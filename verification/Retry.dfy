/** How a failed apply is retried: there is no retry loop, the next check is made to run in full, finds the
    drift again and enqueues the same update. */
module Retries {
  import opened Wrappers
  import opened Updates
  import opened UpdateQueues
  import opened Appliers
  import opened SkipCache
  import opened SkipStates
  import Protocol

  /** Clearing the stored index makes no claim about the stored diffs. */
  twostate lemma StillValid(checker: Checker)
    requires old(checker.Valid()) && unchanged(checker) && unchanged(checker.client)
    requires checker.skip.lastCommit == old(checker.skip.lastCommit)
    requires checker.skip.lastNomadIndex == 0 || checker.skip.lastNomadIndex == old(checker.skip.lastNomadIndex)
    ensures checker.Valid()
  {
    hide FullDiffs;
  }

  lemma Listable(checker: Checker)
    requires checker.Valid()
    ensures forall at: nat :: checker.client.history(at).index > 0
  {
    hide FullDiffs;
  }

  /** After an apply in which a call went wrong, or whose recheck found the tag gone, the next check runs in
      full whatever Nomad and the repository look like; after any other it may be skipped exactly as if
      nothing had been applied. */
  method ApplyThenCheck(applier: Applier, checker: Checker, u: JobUpdate, now: int, ghost w: Protocol.World, commit: string)
      returns (ran: bool, ghost talk: seq<Call>, ghost listed: Option<Cluster>)
    requires applier.Valid() && applier.freezes.Configured(w) && checker.Valid() && applier.skip == checker.skip
    modifies applier.skip, applier.queue, applier.queue.updates, applier.client, checker, checker.client
    ensures checker.Valid()
    ensures applier.client.calls == old(applier.client.calls) + talk
    ensures (exists c :: c in talk && (Refused(c) || Untagged(applier.cfg, c))) ==> ran
    ensures !(exists c :: c in talk && (Refused(c) || Untagged(applier.cfg, c))) ==>
              (ran <==> !(listed.Some? && listed.value.index == old(applier.skip.lastNomadIndex)
                          && commit == old(applier.skip.lastCommit)))
  {
    hide *;
    ghost var v, blocked;
    blocked := Protocol.Blocked(w, applier.freezes.AsView(), u.jobID, now);
    ghost var row := u.View();
    v, talk := applier.ApplyUpdate(u, now, w);
    InvalidatesExactly(applier.cfg, row, blocked, talk);
    StillValid(checker);
    Listable(checker);
    ghost var parses, looks;
    ran, listed, parses, looks := checker.Check(commit);
  }
}
