# nomad-gitops: the reconcile-and-apply engine

nomad-gitops compares job definitions in a Git repository with what a Nomad cluster runs, reports the
differences, and, where policy allows, applies them. This project models the engine that turns a
difference into a guarded write and proves what the guards are for. Verify it with
`dafny verify dfyconfig.toml`.

- **Protocol** (`Protocol`, `ProtocolSafety`, `ProtocolTheorems`, `ProtocolOrder`, `ProtocolLimits`):
  detection cycles, the update queue, the applier, the freeze view and the clocks of orphans as one
  state machine, interleaved step by step with each other and with anyone else who writes to Nomad.
  Requests may fail, land without an answer or never arrive. Every step that asks Nomad something or
  changes it leaves an event in a log; the main invariant says of each event what must have gone before
  it, and the guarantees are statements about the log of every run: policy at the moment of landing, no
  lost writes, freezes, one row at a time and in order, reverts, deregistration, and no write at all
  with the default settings.
- **Queue and applier** (`Updates`, `UpdateQueues`, `Appliers`, `ApplierRefinement`): the queue as a
  function on rows with its invariants over every operation sequence, and as the object that mutates
  shared rows and compacts its list in place, proved equal to it; the applier's methods over that queue
  and a Nomad that answers anything, and their agreement with the protocol's steps.
- **Decisions** (`Decisions`, `Identity`, `Jobs`): policies, gates, update IDs.
- **Cycle** (`Orphans`, `SkipCache`, `SkipStates`, `Retries`): parsing, orphans, first-seen tracking, the
  grace period and the shortcut taken when nothing changed, against a cluster that may change between
  any two requests, and how a failed apply forces the next check to run in full.
- **Freezes** (`Freezes`, `FreezeViews`, `GraceClock`): records and their paths, the cached view, the
  arithmetic that keeps frozen time out of the grace period, and check-and-set writes against
  interference.
- **Plan diffs** (`PlanDiffs`, `Classifier`, `Redaction`, `Rendering`): the counting walk, redaction in
  place over shared field objects, and the report.
- **Rollback** (`Rollbacks`, `FlapGuards`): the last stable version, fingerprints, the flap guard, the
  rollback poll.

Assumptions about Nomad: every write that lands gives the job a larger modify index and the next
version; a registration with an enforced index lands only on that index (0 standing for no job); a
revert lands only at the enforced version; a plan depends on the planned definition and the registered
one; the job list carries an index that is never 0, never falls, and changes with every change of the
jobs. Nomad Variables never carry one modify index twice. That a job is not there is taken to be known
exactly: the code takes every error whose text contains "404" or "not found" to mean it
(internal/nomad/differ.go:1723-1726).

Commit names contain no `/`, and a commit determines its files. Times are integers, 0 is the zero
timestamp. Hash, timestamp parsing, glob matching, HCL parsing and Git history are parameters.

Where the code and its comments disagree, the model follows the code:

- internal/nomad/freeze.go:551-554 says that a freeze leaves an orphan where it was in its grace period.
  That holds for freezes that end by expiry or by removing the variable; after a thaw through the engine
  all the frozen time counts (`GraceClock.ThawSpendsFrozenTime`).
- internal/nomad/freeze.go:565-566 says that a later orphaning starts its grace period clean. Time
  frozen while the job was no orphan is not cleared and still counts (`GraceClock.EarlierFreezesDelay`).
- internal/nomad/applier.go:90-93 says that a held update is derived again after the thaw. A held row
  does not force a full comparison, so that happens only once something else does
  (`Appliers.InvalidatesExactly`).
- internal/nomad/update.go:164-168 calls the refresh of a waiting row safe. It never changes the operation, so a
  waiting row may go on doing something else than was last asked under its ID (`Updates.EnqueueOperation`,
  `Updates.EnqueueKeepsJobs`); a job that is back in the repository may be deregistered that way
  (`ProtocolLimits.RefreshedRemovalLands`).
- internal/nomad/applier.go:26-29 says that clearing the stored index retries a failed apply. A check that listed
  the jobs before and ends after stores its index over the cleared one, and the next check may be
  skipped (`SkipStates.InvalidationSurvives`).

## Model

| member | source | states |
|---|---|---|
| ProtocolSafety.RunKeeps | internal/nomad/applier.go:55-161 | Over every run of detection, queue, applier, freeze view and outside writers, in any interleaving, every event in the log has what must have gone before it, and queue, applier phase and log agree |
| ProtocolTheorems.PolicyHoldsAtLanding | internal/nomad/applier.go:118-160 | A registration that lands makes a change the text of its job's policy key permits, or without the key the default, against the very registration it replaces, and creates a job only where creation is enabled, although the applier never looks at the policy again |
| ProtocolTheorems.ImageOnlyTouchesImages | internal/nomad/differ.go:1572-1579 | Where the job's key says image-only, or is missing and that is the default, a landing registration adds and deletes no group and no task, and every field it changes, on the job, a group, a task or in any object of theirs at any depth, is an image of a Config object, one of the engine's meta keys, or the Count or Scaling of a group the autoscaler owns; and the job was there |
| ProtocolTheorems.ImageOnlyMeetsDead | internal/nomad/differ.go:975-992 | An image-only registration lands on a job that was there and, when it was read, did not count as missing; it meets a job that counts as missing exactly if dead jobs are not included and the job's latest status change since that read says that it died |
| ProtocolTheorems.NoLostWrites | internal/nomad/applier.go:137-156 | A registration with an index replaces exactly the registration read at detection, and nobody wrote the job between that read and the write; one with index 0 finds no job |
| ProtocolTheorems.RegistersFromTheRepository | internal/nomad/differ.go:1617-1646 | What is registered is the definition of this job that some cycle parsed from the repository, changed at most by staying stopped; that cycle's drift of it was approved, and the approval enqueued under the row's ID and the cycle's commit, whose short form is the row's |
| ProtocolTheorems.PreservesCounts | internal/nomad/differ.go:1625-1640 | A registration asks Nomad to keep the counts exactly if some group of the registered job has a name and scaling that is not disabled, also after any refresh |
| ProtocolTheorems.WritesPassTheGate | internal/nomad/applier.go:89-100 | Before every write of the engine, in the same hand-out, the freeze gate let the row through |
| ProtocolTheorems.GateExactly | internal/nomad/applier.go:89-100 | Put to the gate, a row passes exactly if the latest read of the freezes, if there was one, neither saw a freeze on its job in force nor is too old for a view that does not fail open |
| ProtocolTheorems.HeldExactly | internal/nomad/applier.go:89-100 | A hand-out ends held exactly if the gate closed on its row, for such a reason |
| ProtocolTheorems.BoundedFreezeStaleness | internal/nomad/freeze.go:509-549 | Once the freeze store was read, a write follows the latest successful read, in which its job was not frozen, and passed the gate no later than the staleness limit after it |
| ProtocolTheorems.OneAtATime | internal/nomad/update.go:228-241 | At most one row is in progress, and it is the row the applier was handed, unchanged |
| ProtocolTheorems.HandOutsAlternate | internal/nomad/applier.go:55-75 | Between two hand-outs the first row is completed, and it is found in the queue exactly as it was handed out |
| ProtocolTheorems.OneWritePerHandOut | internal/nomad/applier.go:88-161 | A hand-out makes at most one write, and none after it has ended |
| ProtocolOrder.HandOutsInOrder | internal/nomad/update.go:228-241 | Over every run, with detection enqueuing, refreshing and superseding meanwhile: of any two hand-outs the earlier is of the row that was added to the queue earlier |
| ProtocolOrder.HandedOutOnce | internal/nomad/update.go:183-241 | Between two hand-outs under one update ID lies an enqueue that added a row under that ID |
| ProtocolTheorems.DeregistersOrphansOnly | internal/nomad/differ.go:1497-1532 | A deregistration follows, in the same hand-out, a look at the job that found the managed tag. With deregistration on, detection had decided it, on a job not frozen, live and tagged with policy full, that no parsed file defined in that cycle nor in any cycle committed since an earlier one at least the grace period before; and the grace period was over without the time reads saw the job frozen |
| ProtocolTheorems.RevertAtMostOnce | internal/nomad/applier.go:210-237 | Two reverts of a job from one failed version have a purge of the job between them |
| ProtocolTheorems.RevertTarget | internal/nomad/rollback.go:264-366 | A revert lands at the failed version, on the registration seen as a failure unless the job was written since, and goes to the greatest stable version below; the job's definition, parsed from the repository, wanted rollback, its registration did not leave it to Nomad, and it was not frozen |
| ProtocolTheorems.OutOfTheBox | internal/nomad/differ.go:1497-1612 | With deregistration off, and policy none and no rollback for every job the repository ever defines, the queue stays empty over every run and no register, deregister, revert or tag call is made |
| ProtocolSafety.LandsAsApproved | internal/nomad/differ.go:1002-1039 | An index that still matches stands for the registration that was read and planned, so the class found at detection is the class at landing |
| ProtocolSafety.RefreshSourced | internal/nomad/update.go:191-198 | A refreshed row still does something detection asked for: equal update IDs mean equal jobs, and an update never carries the ID of a revert |
| ProtocolLimits.DeadJobIsUpdated | internal/nomad/differ.go:975-992 | A run in which an image-only registration lands on a job that died after it was read: status is not part of the enforced index |
| ProtocolLimits.RefreshedRemovalLands | internal/nomad/update.go:187-203 | A run in which a file that did not parse for some cycles at one commit gets its job deregistered although it parses again and its registration was approved and enqueued, under the same ID, before |
| ProtocolLimits.WaitingStays | internal/nomad/update.go:207-212 | A waiting row, a removal among them, leaves the waiting rows only when taken or when another update of its job is enqueued; a restored file without drift does not call a removal off |
| ProtocolLimits.IDsDiffer | internal/nomad/update.go:126-144 | Rows of different jobs have different update IDs |
| ApplierRefinement.RegisterAgrees | internal/nomad/applier.go:118-160 | Left alone, the protocol's register steps end with the status, index and error of the applier's method after the same conversation with Nomad |
| ApplierRefinement.RecheckAgrees | internal/nomad/applier.go:169-194 | The same for the recheck before a deregistration |
| ApplierRefinement.RemovalAgrees | internal/nomad/applier.go:196-208 | The same for the deregistration call, also when the job vanished since the look at it |
| ApplierRefinement.RevertAgrees | internal/nomad/applier.go:218-237 | The same for a revert |
| ApplierRefinement.HeldAgrees | internal/nomad/applier.go:94-100 | The same for a row held by a freeze |
| ApplierRefinement.RefuseAgrees | internal/nomad/applier.go:101-116 | The same for an unsupported operation and for a registration without a job |
| ApplierRefinement.PollAgrees | internal/nomad/rollback.go:288-366 | The protocol acts on a failure exactly when the rollback poll, given the same answers, queues a rollback, and asks for the same update |
| Appliers.Applier.DrainUpdates | internal/nomad/applier.go:55-75 | With nobody enqueuing meanwhile the drain ends and hands out the waiting rows once each in queue order; what was said to Nomad is, row after row, the conversation each row's operation and the gate ask for; each row, as long as it is listed, carries the status, error, time and index that conversation ended with, held exactly if blocked; and the stored index is cleared exactly if some verdict demands it |
| Appliers.Applier.ApplyNext | internal/nomad/applier.go:62-75 | The same for one row: handed out, put to the gate, applied, and completed with the verdict's status, error, time and index; nothing is done or said when none waits |
| Appliers.Applier.ApplyUpdate | internal/nomad/applier.go:88-161 | Whatever Nomad answers, the update is completed exactly once, with the status, error, time and index its conversation ends with, and the stored index is cleared exactly when that conversation demands it |
| Appliers.Applier.Execute | internal/nomad/applier.go:88-161 | The freeze gate first, then what the operation asks for |
| Appliers.Applier.ApplyRegister | internal/nomad/applier.go:113-160 | Plan, then register with the enforced index unless the plan failed or shows nothing to do |
| Appliers.Applier.ApplyDeregister | internal/nomad/applier.go:169-208 | Look, then deregister only if the job still carries the tag |
| Appliers.Applier.ApplyRevert | internal/nomad/applier.go:218-237 | Revert enforcing the failed version |
| SkipStates.SkipState.Invalidate | internal/nomad/applier.go:30-34 | Clears the stored index |
| SkipStates.SkipState.Store | internal/nomad/differ.go:1061-1065 | Stores the commit in any case, the index only if the list was answered |
| SkipStates.InvalidationSurvives | internal/nomad/differ.go:1061-1065 | When a failed apply clears the stored index, the next check to list the jobs finds it cleared exactly unless a check that had listed them before, with an answer, stores its index in between |
| Retries.ApplyThenCheck | internal/nomad/applier.go:26-34 | After an apply in which a call failed or the recheck found no tag, the next check runs in full whatever it lists; after any other it may be skipped as if nothing had been applied |
| Appliers.InvalidatesExactly | internal/nomad/applier.go:94-204 | The next full comparison is forced exactly when a call failed or the recheck found no tag; not for a held, unsupported or jobless row. Held means the gate was closed and nothing was asked of Nomad |
| Appliers.VerdictExactly | internal/nomad/applier.go:94-237 | How an apply ends told by its calls alone: held exactly if blocked, else failed exactly if a call failed, the recheck found no tag or there was nothing to say; the index is the one a registration or revert was answered with |
| Appliers.WritesArePrepared | internal/nomad/applier.go:118-196 | At most one write per conversation, as its last call and of the row's own operation; a registration follows a plan of the same definition that shows a change and enforces the row's index, a removal a look that found the tag, a revert enforces the failed version |
| Appliers.TakenAndEnded | internal/nomad/update.go:231-261 | Handing out and completing a row: it is the first waiting one, it is found again, the other waiting rows stay in order |
| UpdateQueues.UpdateQueue.Enqueue | internal/nomad/update.go:183-227 | In place: equals the queue function, supersedes at most one row, and a row in progress stays the same object with the same fields |
| UpdateQueues.UpdateQueue.NextPending | internal/nomad/update.go:231-241 | Hands out the oldest waiting row as the object it is; no other row changes |
| UpdateQueues.UpdateQueue.Complete | internal/nomad/update.go:244-261 | The running row of that ID, as long as it is listed, gets exactly the given status and error, an apply time and the new index exactly if it succeeded (the index if there is one), and keeps all else; no other row changes but by pruning |
| Updates.CompleteRecords | internal/nomad/update.go:244-261 | The same for the queue function |
| UpdateQueues.UpdateQueue.PruneRows | internal/nomad/update.go:321-340 | The in-place compaction drops exactly what the pruning function drops |
| UpdateQueues.UpdateQueue.Compact | internal/nomad/update.go:331-339 | Compaction over the backing list: the survivors move to the front in order |
| UpdateQueues.UpdateQueue.Supersede | internal/nomad/update.go:206-212 | Marks every waiting row of a job superseded and counts them |
| UpdateQueues.UpdateQueue.PendingRows | internal/nomad/update.go:278-288 | Counts the waiting rows |
| UpdateQueues.UpdateQueue.Snapshot | internal/nomad/update.go:266-275 | A copy of every row without its parsed job |
| UpdateQueues.UpdateQueue.OldestNonTerminalAge | internal/nomad/update.go:294-317 | The age of the oldest row still waiting or running |
| Updates.QueueInvariant | internal/nomad/update.go:183-261 | Over every operation sequence: unique update IDs, at most one waiting row per job, at most 200 finished rows |
| Updates.PruneExact | internal/nomad/update.go:319-340 | Pruning drops exactly the oldest finished rows in excess of 200, no unfinished row, and keeps the order |
| Updates.StatusForward | internal/nomad/update.go:228-261 | A waiting row is handed out or superseded, a running one ends, an ended one stays so; nothing else, except that a retry takes the ID of an ended row over |
| Updates.UnfinishedStays | internal/nomad/update.go:183-261 | No unfinished row is dropped: it stays unfinished unless completed or superseded by another update of its job |
| Updates.SupersedesAtMostOne | internal/nomad/update.go:202-226 | An enqueue counts one superseded row exactly if the update enters as a new row while another of its job waits, else none |
| Updates.EnqueueRecords | internal/nomad/update.go:183-227 | Every row after an enqueue told by the rows before: under the update's ID the new row, the waiting row with definition, indexes and kept counts taken over, or the running row; under any other ID the row that was there, with status superseded exactly if it waited for the same job and the update entered as a new row |
| Updates.EnqueueKeepsInv | internal/nomad/update.go:183-227 | An enqueue keeps unique IDs, one waiting row per job and the cap |
| Updates.CompleteKeepsInv | internal/nomad/update.go:244-261 | So does a completion |
| Updates.HandOutKeepsInv | internal/nomad/update.go:231-241 | So does a hand-out |
| Updates.EnqueueKeepsRunning | internal/nomad/update.go:198-200 | A row in progress is in the queue, field for field, after any enqueue |
| Updates.EnqueueOperation | internal/nomad/update.go:187-203 | After an enqueue the row with its ID does what was asked exactly if no row of another operation waited or ran under that ID: a refresh never changes the operation |
| Updates.EnqueueKeepsJobs | internal/nomad/update.go:192-197 | A waiting register keeps a job to register exactly unless an update of another operation is enqueued under its ID |
| Updates.QueueAgeIsOldest | internal/nomad/update.go:290-317 | The reported age is that of a waiting row and no waiting row is older |
| Identity.UpdateIDDetermines | internal/nomad/update.go:126-132 | For commits without '/', an update ID stands for one job and one short commit |
| Identity.RevertIDDetermines | internal/nomad/update.go:142-144 | A revert ID stands for one job and one failed version |
| Identity.UpdateIsNeverRevert | internal/nomad/update.go:126-144 | No update ID is ever a revert ID, whatever '/' job IDs and commits contain |
| Identity.SlashInCommitCollides | internal/nomad/update.go:126-132 | With a '/' in a commit two jobs share an ID |
| Identity.DriftKeyRoundTrip | internal/nomad/differ.go:1656-1669 | A drift key reads back as an orphan's job exactly for the orphan kind of drift |
| Identity.DriftKeyDetermines | internal/nomad/differ.go:1667-1669 | A drift key stands for one job and one kind of drift |
| Decisions.QueuedExactly | internal/nomad/differ.go:1534-1612 | An update is queued exactly if every gate lets it pass, in whatever order they are asked; policy, flap guard and the parent version's policy are told by the text of the job's meta keys, or by the defaults without them |
| Decisions.ReasonExactly | internal/nomad/differ.go:1534-1612 | The reason reported is the first gate that holds, in the order of the code |
| Decisions.OlderExactly | internal/nomad/differ.go:1394-1420 | Drift is older than the scope exactly if the parent version of the job's file lacked the opt-in or its policy did not permit the change that the policy of now permits |
| Decisions.AskedExactly | internal/nomad/differ.go:1598-1612 | The flap guard is asked, and may tag, exactly about updates of jobs that are there which would otherwise be queued |
| Decisions.RemovalExactly | internal/nomad/differ.go:1497-1532 | A removal is decided exactly with deregistration on, no freeze, the grace period over and the policy full, by the text of the key or by default without it |
| Decisions.TagsHold | internal/nomad/differ.go:1304-1319 | Tagged image-only, a job gets only image changes and is never created or deregistered; tagged none, nothing is queued for it |
| Decisions.TaggedFull | internal/nomad/differ.go:1304-1319 | Tagged full, a job is decided as without the key where the default is full, except exactly when the default also stands for the parent version's policy and held the change back there |
| Decisions.FrozenIsTheActualReason | internal/nomad/differ.go:1588-1597 | A job is reported frozen exactly if without the freeze its update would pass to the flap guard or the queue; the flap guard likewise |
| Decisions.CreationIsOther | internal/nomad/differ.go:954-992 | Candidates for absent and dead jobs are creations that carry the job's current index, 0 for an absent one |
| Decisions.NoUpdatesQueuesNothing | internal/nomad/differ.go:1566-1571 | Under policy none nothing is queued and the flap guard, which may tag, is not asked |
| Decisions.GateHoldsOneCommitOnly | internal/nomad/differ.go:1394-1420 | Drift held back at the commit that opts a job in is let through at the next commit when nothing else changed |
| Decisions.InvalidPolicyStops | internal/nomad/differ.go:1304-1319 | A job whose policy value is not a policy is never queued for update or removal, whatever the default, and the flap guard is not asked |
| Decisions.DriftDetectedExactly | internal/nomad/differ.go:941-1042 | Drift is reported exactly for a job that counts as missing and for one whose plan shows a change, of a dead job more than bookkeeping; a stopped job stays stopped |
| Decisions.InvalidOverrideIsIgnored | internal/nomad/rollback.go:95-117 | A job whose guard mode or rollback value is invalid is decided like the same job without that key |
| Classifier.ClassifyDiff | internal/nomad/classify.go:61-123 | The counting walk equals the classification of the flattened changed leaves, the autoscaler's own removed |
| Classifier.ClassOfConcat | internal/nomad/classify.go:113-122 | Classification is a homomorphism from concatenation to the join of classes |
| Classifier.SiblingOrderIrrelevant | internal/nomad/classify.go:145-152 | The order of sibling objects does not matter |
| Classifier.SameLeavesSameClass | internal/nomad/classify.go:113-122 | Only which kinds of leaves occur matters |
| Classifier.WalkIsPaths | internal/nomad/classify.go:134-152 | The walk finds a leaf exactly if some path of child positions, starting at no skipped object, leads to it |
| Classifier.ClassifiedExactly | internal/nomad/classify.go:61-182 | The class told without the walk: other exactly if somewhere a group or task is added or deleted, an object lies deeper than 200, or a field changed that is neither image nor meta key; image-only exactly if not that and some image changed; meta-only exactly if neither and some meta key changed; the autoscaler's own aside |
| Classifier.ContentExactly | internal/nomad/differ.go:1671-1722 | A diff has content exactly if some place in it shows a field, an object, or a group or task that is not as it was |
| Classifier.ChangesAreContent | internal/nomad/differ.go:1671-1722 | Whatever classifies as a change has content, so that no change of a dead job is taken for bookkeeping |
| Classifier.DeepNodeForcesOther | internal/nomad/classify.go:134-143 | An object nested deeper than 200, of the job, a group or a task, makes the whole diff an other change, unless it hangs under the autoscaler's own |
| Classifier.ImageClassIsSound | internal/nomad/classify.go:61-122 | In a diff classed image-only or meta-only no group and no task is added or deleted, and every field changed anywhere is an image of a Config object, a managed meta key or the autoscaler's own |
| Jobs.CollectAutoscaledGroups | internal/nomad/classify.go:200-218 | The loop collects exactly the named groups whose scaling is not disabled |
| Jobs.AutoscaledExactly | internal/nomad/classify.go:200-218 | A name is the autoscaler's exactly if some group of that name has scaling that is not disabled |
| Redaction.RedactJobDiff | internal/nomad/redact.go:48-69 | In place: every field down to the capped depth is what redaction makes of it, names, kinds and other values unchanged, and the result counts exactly the fields that changed |
| Redaction.SensitiveExactly | internal/nomad/redact.go:18-41 | Sensitive are names that start with env[, that are embeddedtmpl, or that have one of the nine words at some position, each letter in either case |
| Redaction.RedactedExactly | internal/nomad/redact.go:96-115 | Of a field with a sensitive name every value there is is withheld and a note says so; every other field is as it was |
| Redaction.RedactObjects | internal/nomad/redact.go:76-91 | The same for a list of objects at a depth |
| Redaction.RedactFields | internal/nomad/redact.go:96-115 | The same for a list of fields |
| Redaction.RedactField | internal/nomad/redact.go:96-115 | A sensitive field with a value loses it and gains a note; its empty side stays empty; any other field stays as it is |
| Rendering.RenderedWasRedacted | internal/server/render.go:63-144 | After redaction a field line of the report shows for a sensitive name only empty and withheld values, for any other name what the plan said, in trees of any depth |
| Rendering.ChangedIsRendered | internal/server/render.go:63-144 | Nothing that changed is left out: every changed field visited has its line, which for a name that is not sensitive says what the plan said |
| Rendering.LineSays | internal/server/render.go:108-123 | A field line shows the old value unless the field was added and the new one unless it was deleted, under the sign of the change |
| Rendering.Builder.RenderJobDiff | internal/server/render.go:63-74 | Appends the report of a diff, line for line as laid out |
| Rendering.Builder.RenderObjects | internal/server/render.go:133-144 | Objects down to the capped depth, a truncation line below it |
| Rendering.Builder.RenderFields | internal/server/render.go:108-123 | One line for each added, deleted or edited field, none for others |
| Rendering.Builder.RenderGroup | internal/server/render.go:76-96 | A group with the counts of its updates, its fields, objects and tasks |
| Rendering.CollectParts | internal/server/render.go:77-89 | The loop collects the updates with a positive count, each with its count |
| Rendering.JobShown | internal/server/render.go:63-144 | Of the fields the redaction walk visits the report shows exactly those that changed |
| Freezes.InForceUntil | internal/nomad/freeze.go:106-120 | A record is in force until its expiry passes; without one, or malformed, for good |
| Freezes.SlugIsSafe | internal/nomad/freeze.go:76-87 | A slug has only path characters, is its own slug, and equals the job ID exactly if that has only such characters |
| Freezes.SlugCollision | internal/nomad/freeze.go:85-87 | Two job IDs share a slug exactly if they differ only in characters that become dashes |
| Freezes.SlugNotInjective | internal/nomad/freeze.go:85-87 | The slug is not injective |
| Freezes.RecordRoundTrip | internal/nomad/freeze.go:310-384 | A record written for a job reads back as that job's exactly if the ID has no surrounding white space, and is then well formed exactly if its expiry is empty or parses; reason, author, time, expiry, path and index are those written |
| Freezes.ReadExactly | internal/nomad/freeze.go:310-335 | A variable reads as the record of the job in its item if that belongs at the path, else of the job the path names; malformed exactly without a reason, with an item that does not belong there or an expiry that does not parse |
| Freezes.RequestExactly | internal/nomad/freeze.go:352-384 | A record is asked for exactly if its path has at most 128 characters and the reason is not white space alone |
| Freezes.DistinctPathsDistinctJobs | internal/nomad/freeze.go:318-330 | Records at different paths directly under the prefix name different jobs |
| Freezes.DeletedThroughSlug | internal/nomad/freeze.go:386-396 | Deleting by job ID removes a record exactly if the slugs agree: a purge removes its own record, a thaw may lift another job's freeze |
| FreezeViews.FreezeView.Refresh | internal/nomad/freeze.go:445-499 | A failed read changes nothing; a successful one replaces the view with the classified records, holds exactly the jobs with one in force and accrues frozen time |
| FreezeViews.FreezeView.Blocks | internal/nomad/freeze.go:505-549 | A write is withheld exactly if a freeze of this job is in force, or the view was read, is older than a positive limit and does not fail open |
| FreezeViews.BlockedExactly | internal/nomad/freeze.go:505-549 | After a successful read a job is blocked exactly if some listed record names it and is malformed, has no expiry or expires after the read, or the view is too old; before any read it is not |
| FreezeViews.OtherJobsDoNotBlock | internal/nomad/freeze.go:505-549 | A record that names another job does not change the answer |
| FreezeViews.Accrue | internal/nomad/freeze.go:483-494 | The loop adds the time since the last read for jobs frozen in both, and no other |
| FreezeViews.FreezeView.FreezeJob | internal/nomad/freeze.go:618-671 | Against any other writers: at most two check-and-set writes and no delete, the second only after the first lost and the records were read again, each enforcing the index of the record last read for the job; one that lands creates the record or replaces the very version last read for this job, so never another job's with the same slug |
| FreezeViews.FreezeView.PutFreeze | internal/nomad/freeze.go:635-664 | The two attempts, the read between them, and the indexes they enforce |
| FreezeViews.NoClobber | internal/nomad/freeze.go:352-384 | A write that enforces the index of a record read for a job, and lands on something, lands on the version that record was read from: indexes are never given twice |
| FreezeViews.VariableStore.Land | internal/nomad/freeze.go:352-384 | Check and write in one step: lands exactly if it arrives and the index is the variable's, 0 standing for none |
| FreezeViews.TokenIsRead | internal/nomad/freeze.go:637-642 | The index that is enforced is that of the first record read for the job, and a non-zero one always is such a record's |
| FreezeViews.VariableStore.List | internal/nomad/freeze.go:264-298 | A record for every listed path and no other, each read from a version that stood in the store, an unreadable one as malformed |
| FreezeViews.FreezeView.ThawJob | internal/nomad/freeze.go:675-689 | A thaw deletes exactly the path of the job's record, then forgets the accrued frozen time and reads again; a failed delete changes nothing |
| FreezeViews.FreezeView.PurgeExpired | internal/nomad/freeze.go:707-740 | Deletes exactly the paths of the records expired for the retention period, one after the other, forgets the frozen time of those confirmed and then reads again; if none is confirmed, nothing changes |
| FreezeViews.DueExactly | internal/nomad/freeze.go:707-735 | A purge is due exactly for well-formed records with an expiry that had passed when read and has passed for the retention period; never for a freeze in force |
| FreezeViews.FreezeView.DeleteOverdue | internal/nomad/freeze.go:719-735 | The loop of the purge |
| FreezeViews.FreezeView.GraceOffset | internal/nomad/freeze.go:555-563 | Accrued time plus the time since last seen frozen |
| GraceClock.FrozenStandsStill | internal/nomad/freeze.go:483-494 | While a job stays frozen from read to read, its grace age stands still |
| GraceClock.FreezeEnds | internal/nomad/freeze.go:483-495 | When a freeze ends by expiry or by hand the age advances by exactly the time since it was last seen |
| GraceClock.ThawSpendsFrozenTime | internal/nomad/freeze.go:682-687 | After a thaw all the time the job was frozen counts towards its grace period |
| GraceClock.GraceAgeOverRun | internal/nomad/differ.go:1522-1532 | Over any run of reads without thaw or purge, and for any first sighting: seen from any read on, the grace age is exactly the time since reads that saw the job free plus one gap for each freeze that ended, less the time from that read to the sighting and the time seen frozen before |
| GraceClock.GraceAgeBound | internal/nomad/differ.go:1522-1532 | So since the read before the sighting the grace age is at most the free time plus the longest read interval for each freeze that ended |
| GraceClock.GapsAreBounded | internal/nomad/freeze.go:483-495 | Those gaps are at most the number of ended freezes times the longest time between reads |
| GraceClock.EarlierFreezesDelay | internal/nomad/freeze.go:555-571 | The time deducted includes freezes that ended before the job was orphaned: such a job starts its grace period in debt |
| Orphans.ParseCandidates | internal/nomad/differ.go:866-909 | The loop yields the IDs of all files that parse to a named job, and the entries of the selected among them |
| Orphans.EntriesMean | internal/nomad/differ.go:866-909 | There is an entry for exactly the jobs some file defines and the engine watches, from such a file |
| Orphans.FindOrphans | internal/nomad/differ.go:1213-1269 | The second detection loop finds the live, unparsed, watched jobs and decides each tagged one |
| Orphans.OrphanSource | internal/nomad/differ.go:1213-1269 | Orphans are exactly the listed jobs, live or with dead ones included, that are watched and no parsed file defines, each with the action decided for it |
| Orphans.UnparsableIsDeleted | internal/nomad/differ.go:870-885 | A file that stops parsing counts as deleted: its job is still in the repository exactly if another file defines it |
| Orphans.DriftTracker.CommitResults | internal/nomad/differ.go:1046-1084 | Drifts that are gone are forgotten, new ones enter with the cycle's time, old ones keep theirs; returns the jobs no longer orphaned |
| Orphans.DriftTracker.Forget | internal/nomad/differ.go:1066-1074 | The loop that forgets |
| Orphans.DriftTracker.Enter | internal/nomad/differ.go:1075-1079 | The loop that enters |
| Orphans.FirstSeenIsRunStart | internal/nomad/differ.go:1066-1079 | A drift has a first-seen time exactly while seen in the last cycle, and it is the time of the cycle that started the unbroken run |
| Orphans.OneRunStart | internal/nomad/differ.go:1066-1079 | That start is unique |
| Orphans.OffsetNotNegative | internal/nomad/freeze.go:555-563 | With a clock that does not run backwards the frozen time is never negative |
| Orphans.OffsetExactly | internal/nomad/freeze.go:555-571 | Over every run of reads, thaws, purges and cycles: the time deducted from an orphan's grace period is what reads saw it frozen since that was last forgotten, by a thaw, a purge, or a cycle that found the job back in the repository |
| Orphans.GraceExactly | internal/nomad/differ.go:1522-1532 | The grace period is over exactly if the cycle that started the unbroken run of sightings is that long ago, less that frozen time |
| Orphans.RemovalQueuedExactly | internal/nomad/differ.go:1213-1269 | A removal is queued exactly for a listed job that is live, or dead with those included, tagged managed, policy full by key or default, in no parsed file, while deregistration is on, the job is not frozen and its grace period is over |
| Orphans.RemovalNeedsUnbrokenOrphanhood | internal/nomad/differ.go:1497-1532 | With a clock that does not run backwards the grace period is over only when every cycle committed since one at least the grace period ago saw the job orphaned |
| SkipCache.Checker.Check | internal/nomad/differ.go:1085-1302 | Skips exactly if the list shows the stored index and the commit is the stored one. A skipped check leaves diffs that are all a full one would find, if no request of the last full one failed, even when its requests saw different moments; one that runs stores what its requests showed |
| SkipCache.Checker.FullCheck | internal/nomad/differ.go:1155-1271 | Every file with a job is parsed, every entry of the parsed files looked at once, and the diffs are what those answers and the job list show, plan diffs included |
| SkipCache.ComparedIsFull | internal/nomad/differ.go:1143-1153 | When no request failed, what was found is every difference between files and cluster, and remains so as long as the index is the one listed, whatever happened while the requests were answered |
| SkipCache.ReportsExactly | internal/nomad/differ.go:941-1042 | The diffs told from files, cluster and plans alone: modified exactly if the job's entry comes from that file, the job counts as there and the plan of the definition as it would be applied is not empty, of a dead job has content, and is not meta-only unless those count; missing exactly if the job counts as missing; orphaned exactly if it is listed, watched, live or dead ones included, and no parsed file defines it |
| SkipCache.EntryIsLast | internal/nomad/differ.go:866-909 | A job's entry comes from the last of the files that define it and are watched |
| SkipCache.Checker.LookAt | internal/nomad/differ.go:941-1042 | Reads the entry's job and, unless that failed or it counts as missing, plans it as it would be applied; finds what these answers show |
| SkipCache.EntryAsks | internal/nomad/differ.go:941-1042 | A job is asked about once, and planned as it would be applied exactly if that was answered and it does not count as missing |
| SkipCache.Checker.LookAtAll | internal/nomad/differ.go:1169-1206 | The loop over the entries, in any order |
| SkipCache.Checker.ParseAll | internal/nomad/differ.go:866-880 | The loop over the files, those without a job stanza left out |
| SkipCache.ParseAsks | internal/nomad/differ.go:866-880 | Exactly the files with a job stanza are parsed, each once and in order |
| SkipCache.FailedListIsSkippedOver | internal/nomad/differ.go:1061-1065 | A check whose job list alone failed stores diffs that are complete exactly if there is no orphan, and its commit with the old index, so that the next check may be skipped |
| Rollbacks.LastStable | internal/nomad/rollback.go:264-280 | The result is a stable version below the failed one and no such version is greater; none exactly if there is none |
| Rollbacks.FindLastStable | internal/nomad/rollback.go:264-280 | The loop finds it whatever the order of the list |
| FlapGuards.FormIgnores | internal/nomad/rollback.go:38-80 | Bookkeeping, managed keys in a meta object and counts of autoscaled groups do not change a fingerprint |
| FlapGuards.NullMetaDiffers | internal/nomad/rollback.go:50-55 | A job without meta and one with only managed keys differ, while an empty meta object and one with only managed keys agree |
| FlapGuards.FormsAgree | internal/nomad/rollback.go:38-91 | Two definitions have one fingerprint form exactly if they agree in everything but Nomad's bookkeeping, the engine's own meta keys and what the autoscaler owns |
| FlapGuards.TagRoundTrip | internal/nomad/rollback.go:140-158 | A tag name parses back to its fingerprint unless the prefix is empty, and no other tag does |
| FlapGuards.FailedVersionFingerprints | internal/nomad/rollback.go:186-242 | The fingerprints of failed retained versions, with those of the tags in tag mode; tags exactly the failed, retained, untagged versions; none when Nomad could not be read |
| FlapGuards.FingerprintVersions | internal/nomad/rollback.go:227-240 | The loop over the failed versions |
| FlapGuards.FlapGuardBlocks | internal/nomad/rollback.go:165-178 | Holds a definition exactly if its fingerprint is among the failed ones; lets it through when Nomad cannot be read |
| FlapGuards.HistoryExactly | internal/nomad/rollback.go:186-242 | In history mode a definition is held exactly if a failed deployment's version is retained and agrees with it in everything but bookkeeping, own keys and the autoscaler's part, given a hash without collisions |
| FlapGuards.TagModeExactly | internal/nomad/rollback.go:186-242 | Tag mode holds besides exactly the definitions whose fingerprint is named by the engine's tag on a listed version |
| FlapGuards.TagsAreDurable | internal/nomad/rollback.go:216-226 | Once a version carries the tag of a definition, tag mode holds that definition as long as the version is listed, whatever deployments are left |
| FlapGuards.TagsNameTheirVersion | internal/nomad/rollback.go:244-260 | Exactly the retained failed versions without a tag of any kind are tagged, each with its own fingerprint |
| FlapGuards.CheckRollbacks | internal/nomad/rollback.go:288-366 | Exactly the rollbacks that are wanted, not frozen, failed, not left to Nomad and have a target are queued: each stands unfinished under its ID, a new one with its target; every other unfinished row was there before, and the rows of other jobs and what is being applied stay |
| FlapGuards.RollbackExactly | internal/nomad/rollback.go:264-355 | A rollback is queued exactly if the job's key, or the default, wants it, nothing freezes the job, its latest deployment failed, neither the job nor a group of it leaves that to Nomad, and the target is the greatest stable version below the failed one |
| FlapGuards.CheckRollback | internal/nomad/rollback.go:289-344 | The decision for one job |

## Left out

- ProtocolTheorems.PolicyHoldsAtLanding: under image-only it says that the job is there, not that it runs; the stronger reading fails when the job dies after it was read, see ProtocolLimits.DeadJobIsUpdated and the exact condition in ProtocolTheorems.ImageOnlyMeetsDead.
- ProtocolTheorems.DeregistersOrphansOnly: says what the recheck read, not what is there when the call lands, because the deregister call enforces no index. The job list of a cycle is taken in one moment.
- ProtocolTheorems.BoundedFreezeStaleness: measures the time at which the gate was passed; the plan that follows may take any time. Looking up the record and judging the age of the view are one step here, two lock sections in the code.
- Redaction.RedactJobDiff: no field object occurs twice in the diff; a field shared between two places would be annotated and counted twice.
- Rendering.RenderedWasRedacted: lines are structured values; quoting, indent strings and the sorting of a group's update counts are not modelled. The renderer follows every pointer, so no pointer may be nil where it goes.
- UpdateQueues.UpdateQueue.OldestNonTerminalAge: seconds are integers and a detection time that does not parse is None.
- FlapGuards.CheckRollbacks: works on the rows as a value, not on the shared queue object; the order in which jobs are looked at is arbitrary.
- FlapGuards.HistoryExactly: compares definitions as they are parsed and stored; how Nomad's defaulting makes a stored version differ from its HCL is outside the model.
- FreezeViews.VariableStore.List: the sorting by job ID is not modelled; the reads of single records are not logged.
- Orphans.ParseCandidates: files come as a list in arbitrary order, as the map iteration of the code; of several files with one job the last one counts.
- SkipCache.Checker.Check: apply actions and their details are not part of the compared diffs, since they also depend on the clock and on freezes; one check runs in one piece, so that an invalidation during it is the subject of SkipStates.InvalidationSurvives alone.
- FreezeViews.FreezeView.FreezeJob: the cached records are those of this store; a second view of the same store is one of the other clients.
- Plan diffs of dead jobs with nil groups or tasks: the code would fail on them, the model reads a nil one as without content.
- Liveness: that drift is eventually applied is not guaranteed by the code and not claimed.
- Locks and memory races: every mutex-protected operation is one atomic step.
- Goroutine wiring, tickers, HTTP, HTML, flags, tokens, metrics and log messages.
- Meta validation and meta-change notices, selection reasons and their merging: reporting only.
- Explanations of a blocked policy and descriptions of freezes: text only.
