/** Freeze records: how an operator's hold on a job is written to and read from a Nomad Variable. */
module Freezes {
  import opened Wrappers
  import opened Text

  datatype FreezeState = Active | Indefinite | Expired | Malformed
  {
    predicate InForce() {
      !Expired?
    }
  }

  // Times are integers, 0 is the zero time. `issue` is empty unless the record is malformed.
  datatype FreezeRecord = FreezeRecord(jobID: string, path: string, reason: string, frozenBy: string,
                                       frozenAt: int, expiresAt: int, issue: string,
                                       state: FreezeState, modifyIndex: nat)

  function StateAt(r: FreezeRecord, now: int): FreezeState {
    if r.issue != "" then Malformed
    else if r.expiresAt == 0 then Indefinite
    else if r.expiresAt > now then Active
    else Expired
  }

  function Classified(r: FreezeRecord, now: int): FreezeRecord {
    r.(state := StateAt(r, now))
  }

  /** A record is in force until its expiry passes; one without an expiry, or that makes no sense,
      stays in force for good. */
  lemma InForceUntil(r: FreezeRecord, now: int)
    ensures StateAt(r, now).InForce() <==> r.issue != "" || r.expiresAt == 0 || now < r.expiresAt
    ensures forall later :: later >= now && StateAt(r, later).InForce() ==> StateAt(r, now).InForce()
    ensures StateAt(r, now).Malformed? <==> r.issue != ""
    ensures StateAt(r, now).Indefinite? <==> r.issue == "" && r.expiresAt == 0
    ensures Classified(r, now) == r.(state := StateAt(r, now))
  {
  }

  // ---- The path of a job's record ----

  predicate PathSafe(c: char) {
    'a' <= c <= 'z' || 'A' <= c <= 'Z' || '0' <= c <= '9' || c == '_' || c == '~' || c == '-'
  }

  function FreezeSlug(jobID: string): (r: string)
    ensures |r| == |jobID|
    ensures forall i :: 0 <= i < |r| ==> r[i] == if PathSafe(jobID[i]) then jobID[i] else '-'
  {
    seq(|jobID|, i requires 0 <= i < |jobID| => if PathSafe(jobID[i]) then jobID[i] else '-')
  }

  /** Letters, digits and three signs. */
  ghost predicate LetterDigitOrSign(c: char) {
    'A' <= c <= 'Z' || 'a' <= c <= 'z' || '0' <= c <= '9' || c in {'-', '_', '~'}
  }

  /** The slug has only characters a path may have, none of them a separator, and is its own slug. A
      job ID is its own slug exactly when it has only such characters. */
  lemma SlugIsSafe(jobID: string)
    ensures forall c :: PathSafe(c) <==> LetterDigitOrSign(c)
    ensures forall c :: c in FreezeSlug(jobID) ==> PathSafe(c)
    ensures '/' !in FreezeSlug(jobID)
    ensures FreezeSlug(FreezeSlug(jobID)) == FreezeSlug(jobID)
    ensures FreezeSlug(jobID) == jobID <==> forall c :: c in jobID ==> LetterDigitOrSign(c)
  {
    if FreezeSlug(jobID) == jobID {
      forall c | c in jobID ensures PathSafe(c) {
        var i :| 0 <= i < |jobID| && jobID[i] == c;
        assert FreezeSlug(jobID)[i] == c;
      }
    }
  }

  /** Becomes a dash in a slug. */
  predicate Dashed(c: char) {
    c == '-' || !PathSafe(c)
  }

  /** Two job IDs share a slug exactly when they differ only in characters that become dashes. */
  lemma SlugCollision(a: string, b: string)
    ensures FreezeSlug(a) == FreezeSlug(b)
            <==> (|a| == |b| && forall i :: 0 <= i < |a| ==> (a[i] == b[i] || (Dashed(a[i]) && Dashed(b[i]))))
  {
    if FreezeSlug(a) == FreezeSlug(b) {
      forall i | 0 <= i < |a| ensures FreezeSlug(a)[i] == FreezeSlug(b)[i] {
      }
    }
  }

  /** The slug is not injective. */
  lemma SlugNotInjective()
    ensures FreezeSlug("web.api") == FreezeSlug("web-api")
  {
    SlugCollision("web.api", "web-api");
  }

  // ---- Records and variables ----

  // A Nomad Variable. `createTime` is 0 when the store reports none.
  datatype Variable = Variable(path: string, items: map<string, string>, createTime: int, modifyIndex: nat)

  function Item(v: Variable, key: string): string {
    if key in v.items then v.items[key] else ""
  }

  /** `parse` reads a timestamp. */
  function NewFreezeRecord(parse: string -> Option<int>, jobID: string, reason: string, frozenBy: string,
                           expiresAt: string, frozenAt: int): FreezeRecord {
    var rec := FreezeRecord(jobID, "", TrimSpace(reason), TrimSpace(frozenBy), frozenAt, 0, "", Active, 0);
    if rec.reason == "" then rec.(issue := "record has no reason")
    else if TrimSpace(expiresAt) == "" then rec
    else if parse(TrimSpace(expiresAt)).None? then rec.(issue := "expires_at is not a timestamp")
    else rec.(expiresAt := parse(TrimSpace(expiresAt)).value)
  }

  /** The job a record names: the one in its job item if that belongs at this path, else the one the
      path itself names. */
  function JobNamed(v: Variable): string {
    var segment, j := LastSegment(v.path), TrimSpace(Item(v, "job"));
    if j != "" && FreezeSlug(j) == segment then j else segment
  }

  predicate Mismatched(v: Variable) {
    TrimSpace(Item(v, "job")) != "" && FreezeSlug(TrimSpace(Item(v, "job"))) != LastSegment(v.path)
  }

  function RecordFromVariable(parse: string -> Option<int>, v: Variable): FreezeRecord {
    var rec := NewFreezeRecord(parse, JobNamed(v), Item(v, "reason"), Item(v, "frozen_by"), Item(v, "expires_at"), v.createTime)
               .(path := v.path, modifyIndex := v.modifyIndex);
    if Mismatched(v) then rec.(issue := "job item does not match the path") else rec
  }

  /** A record that could not be read stands for the job its path names, and is malformed. */
  function UnreadableRecord(path: string): FreezeRecord {
    FreezeRecord(LastSegment(path), path, "", "", 0, 0, "record could not be read", Malformed, 0)
  }

  const MAX_PATH: nat := 128

  function PathFor(prefix: string, jobID: string): string {
    prefix + "/" + FreezeSlug(jobID)
  }

  datatype PutRequest = PathTooLong | NoReason | Request(v: Variable)

  // `expires` is the expiry as text, empty for an indefinite freeze.
  function RequestFor(prefix: string, jobID: string, reason: string, frozenBy: string, expires: string): PutRequest {
    if |PathFor(prefix, jobID)| > MAX_PATH then PathTooLong
    else if TrimSpace(reason) == "" then NoReason
    else
      var i0 := map["reason" := reason];
      var i1 := if frozenBy != "" then i0["frozen_by" := frozenBy] else i0;
      var i2 := if expires != "" then i1["expires_at" := expires] else i1;
      var i3 := if FreezeSlug(jobID) != jobID then i2["job" := jobID] else i2;
      Request(Variable(PathFor(prefix, jobID), i3, 0, 0))
  }

  /** A request is made exactly if the path is not too long and there is a reason besides white space. */
  lemma RequestExactly(prefix: string, jobID: string, reason: string, frozenBy: string, expires: string)
    ensures RequestFor(prefix, jobID, reason, frozenBy, expires).PathTooLong? <==> |prefix| + 1 + |jobID| > 128
    ensures RequestFor(prefix, jobID, reason, frozenBy, expires).Request?
            <==> |prefix| + 1 + |jobID| <= 128 && exists c :: c in reason && !IsSpace(c)
  {
    TrimsToNothing(reason);
    hide TrimSpace;
    hide IsSpace;
  }

  lemma SegmentOfPath(prefix: string, jobID: string)
    ensures LastSegment(PathFor(prefix, jobID)) == FreezeSlug(jobID)
  {
    SlugIsSafe(jobID);
    LastSegmentOf(prefix, FreezeSlug(jobID));
  }

  /** What a request puts into its items. */
  lemma RequestItems(prefix: string, jobID: string, reason: string, frozenBy: string, expires: string)
    requires RequestFor(prefix, jobID, reason, frozenBy, expires).Request?
    ensures var v := RequestFor(prefix, jobID, reason, frozenBy, expires).v;
            v.path == PathFor(prefix, jobID) && Item(v, "reason") == reason && Item(v, "expires_at") == expires
            && Item(v, "frozen_by") == frozenBy && Item(v, "job") == (if FreezeSlug(jobID) != jobID then jobID else "")
            && TrimSpace(reason) != ""
  {
    hide TrimSpace;
    hide FreezeSlug;
  }

  lemma JobRoundTrip(prefix: string, jobID: string, v: Variable)
    requires v.path == PathFor(prefix, jobID) && Item(v, "job") == if FreezeSlug(jobID) != jobID then jobID else ""
    ensures JobNamed(v) == jobID <==> TrimSpace(jobID) == jobID
    ensures TrimSpace(jobID) == jobID ==> !Mismatched(v)
  {
    SegmentOfPath(prefix, jobID);
    SlugIsSafe(jobID);
    TrimSpaceFixed(jobID);
    TrimSpaceFixed("");
    hide TrimSpace;
    if FreezeSlug(jobID) == jobID {
      SafeIsTrimmed(jobID);
    } else if TrimSpace(jobID) != jobID {
      assert |FreezeSlug(TrimSpace(jobID))| != |FreezeSlug(jobID)|;
    }
  }

  /** What a record says of its variable. */
  lemma ReadBack(parse: string -> Option<int>, v: Variable)
    ensures var r, expires := RecordFromVariable(parse, v), TrimSpace(Item(v, "expires_at"));
            r.jobID == JobNamed(v) && r.path == v.path && r.modifyIndex == v.modifyIndex && r.reason == TrimSpace(Item(v, "reason"))
            && (r.issue == "" <==> r.reason != "" && !Mismatched(v) && (expires == "" || parse(expires).Some?))
            && (r.issue == "" ==> if expires == "" then r.expiresAt == 0 else Some(r.expiresAt) == parse(expires))
            && r.frozenBy == TrimSpace(Item(v, "frozen_by")) && r.frozenAt == v.createTime
  {
    hide TrimSpace;
    hide JobNamed;
    hide Mismatched;
    hide Item;
  }

  /** What a variable is read as: the record of the job in its item, if that belongs at the path, else of the job
      the path names; malformed exactly if it has no reason, an item that does not belong there, or an expiry
      that does not parse. */
  lemma ReadExactly(parse: string -> Option<int>, v: Variable)
    ensures var r, job, expires := RecordFromVariable(parse, v), TrimSpace(Item(v, "job")), TrimSpace(Item(v, "expires_at"));
            (r.jobID == if job != "" && FreezeSlug(job) == LastSegment(v.path) then job else LastSegment(v.path))
            && (r.issue != "" <==> TrimSpace(Item(v, "reason")) == "" || (job != "" && FreezeSlug(job) != LastSegment(v.path))
                                   || (expires != "" && parse(expires).None?))
  {
    ReadBack(parse, v);
    hide RecordFromVariable;
    hide TrimSpace;
    hide LastSegment;
  }

  /** The same variable as the store holds it. */
  lemma StoredItems(v: Variable, createTime: int, modifyIndex: nat)
    ensures var u := v.(createTime := createTime, modifyIndex := modifyIndex);
            u.path == v.path && u.modifyIndex == modifyIndex && u.createTime == createTime && Item(u, "reason") == Item(v, "reason")
            && Item(u, "frozen_by") == Item(v, "frozen_by")
            && Item(u, "expires_at") == Item(v, "expires_at") && Item(u, "job") == Item(v, "job")
  {
  }

  /** Round trip: a record written for a job is read back as that job's exactly when the ID has no
      surrounding white space, and then it is well formed exactly when its expiry is empty or parses; its reason,
      author, time and expiry are those written. */
  lemma RecordRoundTrip(parse: string -> Option<int>, prefix: string, jobID: string, reason: string, frozenBy: string,
                        expires: string, createTime: int, modifyIndex: nat)
    requires RequestFor(prefix, jobID, reason, frozenBy, expires).Request?
    ensures var r := RecordFromVariable(parse, RequestFor(prefix, jobID, reason, frozenBy, expires).v
                                               .(createTime := createTime, modifyIndex := modifyIndex));
            (r.jobID == jobID <==> TrimSpace(jobID) == jobID)
            && (TrimSpace(jobID) == jobID ==> (r.issue == "" <==> TrimSpace(expires) == "" || parse(TrimSpace(expires)).Some?))
            && r.modifyIndex == modifyIndex && r.path == PathFor(prefix, jobID) && r.reason == TrimSpace(reason)
            && r.frozenBy == TrimSpace(frozenBy) && r.frozenAt == createTime
            && (r.issue == "" ==>
                  if TrimSpace(expires) == "" then r.expiresAt == 0 else Some(r.expiresAt) == parse(TrimSpace(expires)))
  {
    hide *;
    RequestItems(prefix, jobID, reason, frozenBy, expires);
    var v := RequestFor(prefix, jobID, reason, frozenBy, expires).v;
    StoredItems(v, createTime, modifyIndex);
    JobRoundTrip(prefix, jobID, v.(createTime := createTime, modifyIndex := modifyIndex));
    ReadBack(parse, v.(createTime := createTime, modifyIndex := modifyIndex));
  }

  lemma SafeIsTrimmed(jobID: string)
    requires forall c :: c in jobID ==> PathSafe(c)
    ensures TrimSpace(jobID) == jobID
  {
    TrimSpaceFixed(jobID);
    if jobID != "" {
      assert jobID[0] in jobID && jobID[|jobID| - 1] in jobID;
    }
  }

  /** A record always stands at the path of the job it names. */
  lemma NamedAtItsPath(v: Variable)
    requires forall c :: c in LastSegment(v.path) ==> PathSafe(c)
    ensures FreezeSlug(JobNamed(v)) == LastSegment(v.path)
  {
    SlugIsSafe(LastSegment(v.path));
  }

  /** Records at different paths directly under the prefix name different jobs, whatever their items
      say: no two of them can claim one job. */
  lemma DistinctPathsDistinctJobs(prefix: string, s1: string, s2: string, v1: Variable, v2: Variable)
    requires v1.path == prefix + "/" + s1 && v2.path == prefix + "/" + s2
    requires forall c :: c in s1 || c in s2 ==> PathSafe(c)
    requires s1 != s2
    ensures JobNamed(v1) != JobNamed(v2)
    ensures JobNamed(v1) != UnreadableRecord(v2.path).jobID
  {
    LastSegmentOf(prefix, s1);
    LastSegmentOf(prefix, s2);
    NamedAtItsPath(v1);
    NamedAtItsPath(v2);
    SlugIsSafe(s2);
  }

  /** A record directly under the prefix is deleted through the job it names, so a purge removes just
      the record it looked at; but through any other job with the same slug too, so thawing a job that
      was never frozen may lift the freeze of another. */
  lemma DeletedThroughSlug(prefix: string, s: string, v: Variable, jobID: string)
    requires v.path == prefix + "/" + s && forall c :: c in s ==> PathSafe(c)
    ensures PathFor(prefix, JobNamed(v)) == v.path
    ensures PathFor(prefix, jobID) == v.path <==> FreezeSlug(jobID) == FreezeSlug(JobNamed(v))
  {
    LastSegmentOf(prefix, s);
    assert '/' !in s by {
      assert !PathSafe('/');
    }
    NamedAtItsPath(v);
    if PathFor(prefix, jobID) == v.path {
      assert FreezeSlug(jobID) == PathFor(prefix, jobID)[|prefix| + 1..] == s;
    }
  }
}
