/** What detection and application share about the shortcut a check may take: the index and the commit of
    the last full check. */
module SkipStates {
  import opened Wrappers

  class SkipState {
    var lastNomadIndex: nat
    var lastCommit: string

    constructor ()
      ensures lastNomadIndex == 0 && lastCommit == ""
    {
      lastNomadIndex, lastCommit := 0, "";
    }

    /** Nothing Nomad lists has changed since the last full check, nor has the repository. */
    predicate Skips(listed: Option<nat>, commit: string)
      reads this
    {
      listed.Some? && listed.value == lastNomadIndex && commit == lastCommit
    }

    /** Forces the next check to run in full: no index Nomad reports is 0. */
    method Invalidate()
      modifies `lastNomadIndex
      ensures lastNomadIndex == 0
    {
      lastNomadIndex := 0;
    }

    /** After a full check: the commit is stored in any case, the index only when the list was answered. */
    method Store(listed: Option<nat>, commit: string)
      modifies this
      ensures lastCommit == commit
      ensures lastNomadIndex == if listed.Some? then listed.value else old(lastNomadIndex)
    {
      lastCommit := commit;
      if listed.Some? {
        lastNomadIndex := listed.value;
      }
    }
  }

  // ---- Checks and failing applies, interleaved ----

  // A check lists the jobs, and if it runs in full it stores what it listed at its end. The applier may
  // invalidate at any time, also while a check runs.
  datatype SkipEvent = Lists(index: Option<nat>) | Stores | Invalidates

  /** The check that is going on, by what it listed, and the index that is stored. */
  datatype SkipView = SkipView(listed: Option<nat>, stored: nat)

  function After(events: seq<SkipEvent>): SkipView {
    if events == [] then SkipView(None, 0)
    else
      var v := After(events[..|events| - 1]);
      match events[|events| - 1]
      case Lists(index) => v.(listed := index)
      case Stores => v.(stored := if v.listed.Some? then v.listed.value else v.stored)
      case Invalidates => v.(stored := 0)
  }

  /** No index Nomad reports is 0. */
  ghost predicate Positive(events: seq<SkipEvent>) {
    forall e :: e in events && e.Lists? && e.index.Some? ==> e.index.value > 0
  }

  /** What is listed is the answer of the latest list. */
  lemma {:induction false} LatestList(events: seq<SkipEvent>, l: nat)
    requires l < |events| && events[l].Lists? && forall m :: l < m < |events| ==> !events[m].Lists?
    ensures After(events).listed == events[l].index
  {
    if l < |events| - 1 {
      assert forall m :: l < m < |events| - 1 ==> events[..|events| - 1][m] == events[m];
      LatestList(events[..|events| - 1], l);
    }
  }

  lemma {:induction false} ListedIsPositive(events: seq<SkipEvent>)
    requires Positive(events)
    ensures After(events).listed.Some? ==> After(events).listed.value > 0
  {
    if events != [] {
      var front := events[..|events| - 1];
      assert forall e :: e in front ==> e in events;
      assert events[|events| - 1] in events;
      ListedIsPositive(front);
    }
  }

  /** When the invalidation by a failed apply survives until the next check lists the jobs, and so forces
      it to run in full: exactly unless a check that was going on, its list answered before the
      invalidation, stores that index after it. Of several invalidations the last counts. */
  lemma {:induction false} InvalidationSurvives(past: seq<SkipEvent>, after: seq<SkipEvent>)
    requires Positive(past) && forall e :: e in after ==> e.Stores?
    ensures var v := After(past + [Invalidates] + after);
            v.listed == After(past).listed && (v.stored == 0 <==> after == [] || v.listed.None?)
  {
    var events := past + [Invalidates] + after;
    if after == [] {
      assert events == past + [Invalidates] && events[..|past|] == past;
    } else {
      var front := after[..|after| - 1];
      assert events[..|events| - 1] == past + [Invalidates] + front;
      assert after[|after| - 1] in after && forall e :: e in front ==> e in after;
      InvalidationSurvives(past, front);
      ListedIsPositive(past);
    }
  }
}
