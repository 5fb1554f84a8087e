# Verified model of the toolbelt's crash-safe protocols

This project models the parts of the toolbelt that must keep their promises when they stop at any point and run
again, and proves those promises. `dafny verify dfyconfig.toml` checks everything.

* **Evidence replication** (`Evidence*.dfy`, `Order.dfy`): a sender collects a bounded batch from a source tree, a
  receiver applies it with compare-and-swap on digests and answers with a receipt, the sender checks the receipt and
  advances its checkpoint. `EvidenceLedger`, `EvidenceCollector`, `EvidenceRetirement`, `EvidenceDiscovery` and
  `EvidenceAssembly` are the collection. `EvidenceReceiver` says what an application does, step by step, as a function;
  `EvidenceClearing` judges retirements on the tree before the exchange; `EvidenceMirror` is the receiver as it runs,
  on a visible tree and on the directory entries already synced, every effect of which may fail.
  `EvidenceExchange.Campaign` puts both halves together for whole runs.
* **Route switch** (`Routes.dfy`): the double-buffered rebuild of a routing table, one kernel command at a time.
* **Stage operator** (`Operator.dfy`): retry budgets, worker quiescing and restoration, the admission fence and the
  resume-or-refuse rules over one persisted record.
* **At-most-once dispatch** (`ReviewDispatch.dfy`, `RoborevDispatch.dfy`): UNKNOWN is saved before the remote effect,
  the lock file is a history anchor and a tombstone.
* **Owner coordination** (`Audits.dfy`, `Prompts.dfy`, `Scheduler.dfy`, `Ownership.dfy`): audits versioned by content
  and generation, write-ahead prompts, capacity-bound admission, manifests that keep ownership.
* **Self-contained algorithms**: the wire codec (`Json.dfy`, `Protocol.dfy`), the source editor (`Comments.dfy`,
  `PluginsHash.dfy`), archive links as the check follows them (`Links.dfy`) and in the unpacked tree
  (`LinkResolution.dfy`, `LinkArchives.dfy`, `LinkExamples.dfy`), and shortest dependency paths (`Graph.dfy`).

## How crashes and outside parties appear

An effect is a method whose outcome is nondeterministic (`Effects.Exit`): it succeeds, it fails and may or may not have
taken effect, or it is the last thing before a crash. A postcondition that is not guarded by success therefore holds at
every crash point. Where the code syncs files, the state has two parts, what is read back and what a power loss leaves,
and the invariants speak of both. Services, the forge, the provider, the kernel, users and other writers answer and act
as they like; where a component depends on somebody keeping a rule, that rule is a precondition.

SHA-256 and the identities derived from it are injective functions of the hashed values. A path is the sequence of its
components. Timestamps of new runs increase.

## Where the code does not meet the plain statement

* Every source yields a batch that passes the item checks if and only if every acknowledged digest in scope is well
  formed; where one is malformed, a source that shows that path makes the collection return a batch the validation
  refuses (`ProbeDigests`). For the second half the inventory must leave room to list
  all of it in one batch.
* The component stack of `normalized_link` is where a link text really leads, segment by segment, if and only if every
  segment is taken at a directory and no `..` climbs over a leading `.`, which the stack counts as a level
  (`StackIsExactIffOnDirectories`, `StaysInsideIffUndotted`). In an accepted archive only the `..` segments and a last
  separator need looking at (`AcceptedLinkIsExactIff`). Without a directory there, an accepted link leaves the root
  (`BorrowedParentLeaves`) or leads nowhere (`FileBeforeUpIsMissed`).
* A user's request marker is not synced by the operator, so the marker of an owed record survives a power loss if and
  only if the operator created it or it was durable before (`Operator.Run`). Without it the record is refused, and kept,
  until a request is made again (`LoseMarker`).
* A revocation holds once the refresh that saw it is persisted; one that a crash takes with it is as if never seen
  (`Audits.Packet.Restart`).
* The archive check notices an entry below a link exactly when the link's name is written without empty or `.` segments
  and starts with `.` just as the entry's name does (`DetectedIffTidy`, with a failing input in `UntidyLinkIsMissed`).

## Model

| member | source | states |
|---|---|---|
| EvidenceModel.OpenDir | src/orchestration/evidence.rs:844-903 | what opening the parent of a path meets: a directory, nothing, a checkout or a foreign entry |
| EvidenceFrames.OpenDirIsExact | src/orchestration/evidence.rs:844-903 | opening succeeds exactly when every directory on the way is there and no checkout; otherwise the first that is not decides, absent when nothing is there and blocked when something is |
| EvidenceValidation.Validate | src/orchestration/evidence.rs:1028-1190 | accepts exactly the valid batches: names, bounds, digests, distinct and unnested paths, justified and disjoint retirements |
| EvidenceValidation.CollectPaths | src/orchestration/evidence.rs:1114-1159 | the running size and path set reject exactly the oversized, malformed or repeated items |
| EvidenceValidation.FindBlocked | src/orchestration/evidence.rs:1074-1113 | the retirements blocked are exactly those whose root or a removal below it cannot be reached |
| EvidenceValidation.CheckRetirements | src/orchestration/evidence.rs:1160-1188 | accepts exactly retirements that have a removal below, nothing transferred around them, and do not overlap |
| EvidenceSteps.ValidIsRegular | src/orchestration/evidence.rs:1192-1317 | in a valid batch every step works on its own clean path or container and no two steps touch each other's |
| EvidenceReplay.StatesWellFormed | src/orchestration/evidence.rs:1192-1317 | the receiver's tree stays a tree after every step |
| EvidenceReplay.BlockedStable | src/orchestration/evidence.rs:1074-1113 | which retirements are blocked does not change while the batch is applied |
| EvidenceReplay.CrashReplay | src/orchestration/evidence.rs:1192-1354 | stopping inside any step and applying the batch again ends in the tree and the receipt of one uninterrupted application |
| EvidenceReplay.FinishedReplay | src/orchestration/evidence.rs:1192-1354 | applying a finished batch again changes nothing and gives the same receipt |
| EvidenceReceipt.DecidedOnOriginal | src/orchestration/evidence.rs:1213-1277 | each item is decided on what its path showed before the exchange |
| EvidenceAgreement.SenderAcceptsReceipt | src/orchestration/evidence.rs:148-218 | the receiver's receipt for any valid batch on any tree passes every clause of the sender's check |
| EvidenceAgreement.ConsistentIsExact | src/orchestration/evidence.rs:160-218 | the sender's check over its indexes passes exactly when the receipt settles every upload, verification, removal and retirement of the batch once, with its digest, and names nothing else |
| EvidenceAgreement.ReceiptMatchesTree | src/orchestration/evidence.rs:1209-1317 | accepted items are held with exactly their digest, removed ones are gone, refused ones are conflicts and untouched |
| EvidenceForeign.NoForeignBytesLost | src/orchestration/evidence.rs:904-921 | at every interruption point each entry is what it was or a change the batch was entitled to make: expected digest, acknowledged digest, or an empty container |
| EvidenceDurable.HeldMeansDurable | src/orchestration/evidence.rs:1240-1244 | an entry acknowledged after the explicit syncs survives a power loss with its bytes |
| EvidenceDurable.FirmNext | src/orchestration/evidence.rs:1213-1315 | everything acknowledged so far stays durable through the next step |
| EvidenceClearing.RetirementJudged | src/orchestration/evidence.rs:1278-1315 | on the tree before the exchange: a retirement is acknowledged, with all its removals and nothing left at or below its root, if and only if it is not blocked and everything there is a removal with its digest or a directory above one; otherwise it is a conflict, none of its removals is acknowledged, and whatever is in the way is as it was |
| EvidenceMirror.Mirror.FindParent | src/orchestration/evidence.rs:853-903 | finds the parent as the specification does, having synced every directory on the way |
| EvidenceMirror.Mirror.MakeParent | src/orchestration/evidence.rs:853-903 | makes the missing directories one by one, each durable before the next; a failure leaves a prefix of them |
| EvidenceMirror.Mirror.VerifyItem | src/orchestration/evidence.rs:1213-1224 | accepts exactly when the digest matches, and then the entry is durable |
| EvidenceMirror.Mirror.StoreItem | src/orchestration/evidence.rs:1225-1248 | replaces only the expected content; on success tree and receipt are those of the step, on failure a part of it |
| EvidenceMirror.Mirror.EraseItem | src/orchestration/evidence.rs:1249-1277 | removes only the acknowledged digest, durably |
| EvidenceMirror.Mirror.PruneDir | src/orchestration/evidence.rs:1319-1354 | under a parent that opens, a directory counts as gone exactly when it is absent or was a directory without entries, and then it is gone from the tree and from the disk; otherwise nothing changes |
| EvidenceMirror.Mirror.RetireDirs | src/orchestration/evidence.rs:1284-1304 | retires containers deepest first; an interruption leaves a prefix of them retired |
| EvidenceMirror.Mirror.RetireItem | src/orchestration/evidence.rs:1278-1315 | acknowledges a retirement only with all its removals, and takes the removals back otherwise |
| EvidenceMirror.Mirror.Apply | src/orchestration/evidence.rs:1192-1317 | a finished application is the uninterrupted one, everything in its receipt is durable, and each retirement is judged by what was in its way before; a failed one stopped inside a step and replays, and so does what a power loss leaves of it |
| EvidenceLedger.JustifiedKept | src/orchestration/evidence.rs:481-538 | a reason for leaving something out stands while the batch grows |
| EvidenceCollector.Collection.UploadFile | src/orchestration/evidence.rs:512-533 | a new or changed file is uploaded, or deferred when there is no room; a file with its acknowledged digest is never sent |
| EvidenceCollector.Collection.TakeFile | src/orchestration/evidence.rs:481-538 | a regular file is verified, uploaded or deferred with its reason, and a refusal names a bound |
| EvidenceCollector.Collection.Walk | src/orchestration/evidence.rs:400-540 | every entry below that is no directory is uploaded, verified, or at or below something omitted or deferred for a reason; everything recorded comes from the source, at most once for each entry; a refusal names a bound |
| EvidenceRetirement.CountContainers | src/orchestration/evidence.rs:694-719 | the counters hold, for every container of a transition, how many acknowledged paths it has and how many the batch removes |
| EvidenceRetirement.OutermostDrained | src/orchestration/evidence.rs:720-737 | retires exactly the outermost containers whose acknowledged paths are all removed |
| EvidenceDiscovery.UniqueRoots | src/orchestration/evidence.rs:549-559 | the kept roots do not nest and cover the same paths |
| EvidenceDiscovery.FateIsTrue | src/orchestration/evidence.rs:625-665 | a path found vanished is gone from the source, a hidden one may not be read, a present one is there |
| EvidenceDiscovery.DiscoverDeletions | src/orchestration/evidence.rs:593-691 | an acknowledged path is announced as deleted only if the source holds nothing there that may not be read or is a file, and it was not uploaded or verified; every one in scope is answered |
| EvidenceDiscovery.CollectedIsReady | src/orchestration/evidence.rs:385-751 | a collected batch keeps every bound, states only what is acknowledged, and has a valid shape if acknowledged paths do not nest |
| EvidenceAssembly.Collect | src/orchestration/evidence.rs:385-751 | a returned batch is ready and complete: uploads are new or changed bytes of the source and verifications its unchanged ones, deletions are gone, nothing in scope is left out without a reason, and every directory that a file replacing it finds emptied of acknowledged paths is at or below a retirement root; where everything fits a batch is returned |
| EvidenceAssembly.RetiresAll | src/orchestration/evidence.rs:694-737 | for a file in scope that replaces acknowledged descendants, and is neither omitted nor left to the cursor, each directory at or below it whose acknowledged paths the batch all removes is covered by a retirement root |
| EvidenceAssembly.ReplacingIsMarked | src/orchestration/evidence.rs:481-494 | the walk marks every such file |
| EvidenceAssembly.WellFormedIsEnough | src/orchestration/evidence.rs:528-533 | with well-formed acknowledged digests every collected batch passes the item checks |
| EvidenceAssembly.ProbeDigests | src/orchestration/evidence.rs:512-533 | every source yields an item-valid batch if and only if every acknowledged digest in scope is well formed, with a collection that is refused otherwise |
| EvidenceExchange.ReadyIsValid | src/orchestration/evidence.rs:121-144 | a ready batch with a nonce passes the validation on a sound checkpoint |
| EvidenceExchange.AdvancePrefixFree | src/orchestration/evidence.rs:219-229 | known minus removed plus accepted stays prefix-free |
| EvidenceExchange.AdvanceIsOk | src/orchestration/evidence.rs:219-229 | a consistent receipt advances to a sound inventory within its bound |
| EvidenceExchange.CursorFits | src/orchestration/evidence.rs:230-241 | the outermost conflicts never exceed the cursor bound |
| EvidenceExchange.ReceiverReceiptPasses | src/orchestration/evidence.rs:148-247 | the receipt of any receiver passes all checks of acknowledge on the checkpoint that prepared the batch |
| EvidenceExchange.Exchange.Prepare | src/orchestration/evidence.rs:121-144 | prepares a valid, complete batch bound to the checkpoint, retirements included, or repeats the pending one unchanged; refuses by size exactly over the bounds and never rejects on a sound checkpoint |
| EvidenceExchange.Exchange.Outermost | src/orchestration/evidence.rs:230-238 | keeps exactly the conflicts no other conflict contains |
| EvidenceExchange.Exchange.Acknowledge | src/orchestration/evidence.rs:148-247 | adopts a receipt only of the pending batch and only when it settles every item; known is old known minus removed plus accepted, path by path, or nothing changes |
| EvidenceExchange.Campaign | src/orchestration/evidence.rs:121-247 | over any run with failures, lost replies and other writers the checkpoint stays sound and every receiver's receipt that arrives is adopted |
| Routes.DeleteNamesRule | src/direct_network.rs:695-717 | the delete command of an owned rule selects exactly that rule among rules without conflicts |
| Routes.OwnIsExact | src/direct_network.rs:652-687 | which rules count as this daemon's: the two exact forms on its priorities and tables and no others |
| Routes.RemovesListed | src/direct_network.rs:695-717 | deleting an owned rule removes one copy of it and nothing else |
| Routes.Kernel.CheckReservations | src/direct_network.rs:719-757 | passes exactly when no rule that is not exactly this daemon's uses priorities 49 or 50 or the two tables, and no foreign route is in them |
| Routes.Kernel.SetTable | src/direct_network.rs:599-646 | a table may change only while no owned rule leads to it |
| Routes.Kernel.Flush | src/direct_network.rs:599-605 | leaves foreign routes, and on IPv6 the maximum-metric fallback |
| Routes.Kernel.RemoveRetainedFallback | src/direct_network.rs:763-805 | after it the exclusive add of the IPv6 fallback finds none |
| Routes.Kernel.Fill | src/direct_network.rs:599-646 | a finished batch leaves exactly the routes and, last, the unreachable fallback |
| Routes.Kernel.DeleteAll | src/direct_network.rs:823-830 | deletes rules one command at a time; at every stop the rest is intact and foreign rules are untouched |
| Routes.Kernel.Install | src/direct_network.rs:840-878 | adds the direct rule and one rule for each local destination, all to a complete table |
| Routes.Kernel.ClearInactive | src/direct_network.rs:821-830 | recovers an interrupted switch so that no owned rule leads to the table to be rebuilt |
| Routes.Kernel.Replace | src/direct_network.rs:840-887 | ends with exactly the target rules and never without a live rule in between |
| Routes.TargetIsExact | src/direct_network.rs:840-878 | the target is one direct rule and one rule for each destination of a local route |
| Routes.Kernel.Switch | src/direct_network.rs:807-888 | at every stop owned rules lead to complete tables, a live direct rule remains if there was one, foreign rules and the table lookups use are as they were; with a trespasser nothing changes; a finished switch ends, from any interrupted state, with one direct rule and one rule for each destination of a local route, all to the other table, which holds the routes and the fallback |
| Routes.Daemon | src/direct_network.rs:807-888 | over any sequence of finished, failed or interrupted switches of both families each always has a direct rule to a complete table once it had one |
| Operator.ConfigOk | src/operator.rs:236-268 | the policies a run accepts |
| Operator.SettledKept | src/operator.rs:428-494 | progress on one stage keeps every settled stage settled |
| Operator.Operator.Write | src/operator.rs:147-159 | a save leaves the old or the new record, and either accounts for stopped workers, the running stage and completions |
| Operator.Operator.StopStage | src/operator.rs:610-618 | a stage counts as stopped only when the manager reported its unit inactive |
| Operator.Operator.StopWorker | src/operator.rs:406-412 | a worker is stopped only after it is durably recorded, and a finished stop means that the manager reported it inactive |
| Operator.Operator.StartStage | src/operator.rs:447-456 | a stage starts only behind both markers, durably recorded, within budget, never after completion, after all earlier stages are settled and every worker of the policy was reported inactive; each attempt whose end is seen is logged with how it ended |
| Operator.Operator.Quiesce | src/operator.rs:402-414 | each active worker is recorded before it is stopped, every recorded one of the policy is stopped, and afterwards the manager has reported every worker of the policy inactive |
| Operator.Operator.SetRequest | src/operator.rs:385-388 | a missing marker is created and synced; one that is there stays as it is, synced or not |
| Operator.Operator.CountFailure | src/operator.rs:471-487 | a failed attempt is counted once, durably, and no retry comes before the unit is stopped |
| Operator.Operator.Try | src/operator.rs:442-490 | unless the run is asked to stop, an attempt that succeeded is a completion and any other is one failure more |
| Operator.Operator.RunStage | src/operator.rs:441-488 | a stage ends completed or with its budget spent; unless the run is asked to stop every success of the unit is on record, durably once the stage ended so, and every other attempt is counted as one failure; failures never exceed the budget and the delay index is in range |
| Operator.Operator.RunStages | src/operator.rs:427-500 | success means every stage completed; failure means every stage settled and one not completed; all attempts are accounted for |
| Operator.Operator.Execute | src/operator.rs:394-501 | restoration alone runs no stage and repeats the recorded result |
| Operator.Operator.RestoreWorkers | src/operator.rs:519-534 | without a failure no worker is left to restore |
| Operator.Operator.ConfirmStopped | src/operator.rs:500-508 | without confirmation everything stays owed |
| Operator.Operator.Recover | src/operator.rs:500-580 | a returned outcome is durably recorded with no worker, stage or fence left, and the request is removed unless interrupted |
| Operator.Operator.Run | src/operator.rs:321-580 | resumes, refuses or starts; an owed record is never replaced by a new run, refusals change nothing, and a resumed run keeps its identity and its completed stages; success means that each stage's unit ended successfully in this call, or completed before in the record it resumes, unless the run is asked to stop the failures and successes on record are exactly those of the attempts, and an interruption was asked for or recorded; the marker of a record left owed is durable if and only if the operator created it or it was durable before |
| Operator.Operator.Cancel | src/operator.rs:583-601 | cancels only a record that owes nothing |
| Operator.Operator.Promises | src/operator.rs:336-601 | in every reachable state stopped workers are durably recorded, a possibly running stage is behind a durable fence, success is true, every completion on record had a successful attempt and every counted failure an unsuccessful one, failures are bounded, completions stay, and any request resumes what is owed |
| Operator.Operator.LoseMarker | src/operator.rs:336-366 | when a power loss takes an unsynced request, the owed record is refused and kept until a request is made again |
| Operator.Operator.History | src/operator.rs:321-601 | the promises hold after any number of runs, cancellations, touched and withdrawn requests and power losses |
| ReviewDispatch.MatchIsSameKey | src/review/engine.rs:43-56 | matching is equality of comparison and policy |
| ReviewDispatch.LoadIsBarred | src/review/engine.rs:167-206 | whatever history a reader gets, it bars every outstanding submission |
| ReviewDispatch.LoadDecides | src/review/engine.rs:167-206 | which histories are refused, and that a loaded one holds the runs on disk and is complete only if it was recorded so behind the anchor or nothing was there before |
| ReviewDispatch.SaveRunKeeps | src/review/engine.rs:149-162 | saving a run changes no other intent |
| ReviewDispatch.SaveRunRefuses | src/review/engine.rs:149-162 | a run is refused exactly when the first one of its id has another intent |
| ReviewDispatch.SaveRunIsBarred | src/review/engine.rs:149-162 | saving a run keeps every outstanding submission barred |
| ReviewDispatch.UniqueMatchDecides | src/review/engine.rs:319-334 | with one match at most, an outstanding submission shows as a non-deferred run or an incomplete history |
| ReviewDispatch.AmbiguityShows | src/review/engine.rs:319-328 | the history counts as ambiguous exactly when two of its runs match |
| ReviewDispatch.SubmissionsAreSeparated | src/review/engine.rs:437-476 | between two submissions of one comparison lies a rejection with a retry time |
| ReviewDispatch.SubmitIsBarred | src/review/engine.rs:437-452 | a submission of a comparison whose run is saved and not deferred leaves every outstanding submission barred |
| ReviewDispatch.Desk.Open | src/review/engine.rs:285-304 | only the creator of the lock file is fresh |
| ReviewDispatch.Desk.LoadJournal | src/review/engine.rs:167-206 | journal first, anchor second, both before any provider effect; the runs are those on disk, and completeness is never inferred |
| ReviewDispatch.Desk.Send | src/review/engine.rs:448-452 | a submission needs a durable UNKNOWN run and none outstanding |
| ReviewDispatch.Desk.Dispatch | src/review/engine.rs:437-476 | submits at most once, and only if the recheck still saw the same open comparison; deferred again only after a rejection, whose retry time it reports |
| ReviewDispatch.Desk.Conclude | src/review/engine.rs:399-510 | the outcome is decided by the comparison at the end, then the review, where Ready also needs clear checks, then what is known of the submission; it is recorded with the run before it is reported, except for a comparison that moved before the dispatch, which is not sent; a rejection's retry time is reported |
| ReviewDispatch.Desk.Tick | src/review/engine.rs:268-510 | one tick submits at most once, only if allowed, only its own comparison while it is open, and only to a provider that attests revisions, speaks the policy's transport and takes drafts where there is one; it reports the retained outcome while that asks to wait, blocks on an unfit provider, a failed observation or a history that permits no new run, and otherwise what is decided for the retained, recovered or new run |
| ReviewDispatch.Desk.Patrol | src/review/engine.rs:268-510 | for all interleavings of workers, crashes, power losses and lost journals, submissions of one comparison are separated by rejections |
| RoborevDispatch.Claim.Open | src/review/roborev_dispatch.rs:123-151 | the lock file is a tombstone: one creator at most |
| RoborevDispatch.Claim.Read | src/review/roborev_dispatch.rs:153-181 | a missing ledger is a new request only for the creator |
| RoborevDispatch.Claim.Enqueue | src/review/roborev_dispatch.rs:237-250 | an enqueue needs a durable ledger without a job, by the creator |
| RoborevDispatch.Claim.Tick | src/review/roborev_dispatch.rs:187-309 | enqueues only on the first dispatch and only when no job is listed; whatever is answered is of the one listed job, whose checkout, range, agent and options are those of the frozen dispatch and which is the job on record or the one just issued, with the status it has |
| RoborevDispatch.Claim.Patrol | src/review/roborev_dispatch.rs:187-309 | over every run at most one enqueue |
| Audits.LookKeeps | src/orchestration.rs:717-741 | one more look never lets an older certificate match, and a contradicted one falls behind |
| Audits.LooksKeep | src/orchestration.rs:710-741 | a refresh keeps the audit invariant and revokes every contradicted certificate |
| Audits.RevokedIsNeverCurrent | src/orchestration.rs:343-353 | a revoked certificate differs from the current version even when the same bytes return |
| Audits.RecordKeeps | src/orchestration.rs:828-830 | recording an audit of the current version keeps the invariant |
| Audits.RecordKeepsDependencies | src/orchestration.rs:831-834 | likewise for the producers' evidence |
| Audits.Packet.Observe | src/orchestration.rs:691-741 | content that differs from the last observation moves the generation on, and a collector's generation is ignored |
| Audits.Packet.AdoptEvidence | src/orchestration.rs:746-765 | missing evidence revokes every dependency audit, and its first loss moves the generation on |
| Audits.Packet.RecordItem | src/orchestration.rs:811-836 | one item certifies its pull request, as it is now, exactly when it merged or was closed with a disposition, the item audited its head with evidence, and the checkpoint is new |
| Audits.Packet.RecordReport | src/orchestration.rs:811-836 | a report certifies exactly the pull requests whose first item does, and where it does not move the checkpoint it records no audit |
| Audits.Packet.RecordAudit | src/orchestration.rs:856-884 | a historical audit certifies exactly the assigned pull requests for which a finding has evidence and names the current version and, where there are producers, theirs |
| Audits.Packet.AdoptReport | src/orchestration.rs:804-838 | a report counts only when bound to the delivered event and observation, and then whole; it certifies only while the evidence is complete |
| Audits.EnteredIsBacked | src/orchestration.rs:811-884 | behind each new certificate stands the bound report's item or a finding of exactly the certified version |
| Audits.Packet.Refresh | src/orchestration.rs:601-946 | a failed refresh changes nothing; otherwise exactly the contradicted certificates are revoked, exactly the audits that the bound report or the findings carry are recorded, so that each new certificate has one behind it, and terminal means current audits of closed work |
| Audits.Packet.Judge | src/orchestration.rs:885-911 | the backlog count and the flags give exactly the terminal condition |
| Audits.Packet.FinishedNeedsLiveAudits | src/orchestration.rs:1211-1306 | finished implies for every pull request an unrevoked audit of its present feedback and evidence |
| Audits.Packet.Persist | src/orchestration/driver.rs:847-850 | a finished save keeps the entry with everything recorded and revoked so far |
| Audits.Packet.Restart | src/orchestration/driver.rs:800-850 | after a crash the persisted entry is all there is |
| Audits.Packet.History | src/orchestration.rs:601-946 | over any history with crashes, audits revoked in the persisted entry stay revoked |
| Prompts.PrepareAccounts | src/orchestration.rs:1150-1190 | a pending body is kept; a fresh one is for an undelivered event of an owner that is not terminal, carries the text, session and event, and has a larger generation than anything posted |
| Prompts.AcknowledgeAccounts | src/orchestration.rs:1193-1208 | a receipt releases exactly the pending prompt |
| Prompts.PreparedThenAcknowledged | src/orchestration.rs:1150-1208 | a delivered event carries the observation, progress, goal and times it was prepared and tried with, and its owner wakes again exactly for another event |
| Prompts.Campaign.Post | src/orchestration/driver.rs:927-935 | only the durable pending body is posted, and every prompt without a receipt is that body |
| Prompts.Campaign.Reconcile | src/orchestration/driver.rs:582-617 | given what the session shows: an input is acknowledged exactly when the message that answers for its identity agrees with it in identity, session, kind, text, metadata and all three attachment lists; one that differs stops the cycle with nothing changed |
| Prompts.Campaign.VerifyInput | src/orchestration/driver.rs:542-580 | the comparison accepts exactly the messages that agree in every part |
| Prompts.Campaign.Submit | src/orchestration/driver.rs:893-943 | a retry posts the pending body unchanged, and a finished submission posted it |
| Prompts.Campaign.Cycle | src/orchestration/driver.rs:800-954 | a new prompt is posted only when all earlier ones have receipts; a receipt that differs leaves record, disk and posts as they were, one that agrees is delivered |
| Prompts.Campaign.History | src/orchestration/driver.rs:800-954 | over any history one identity is one body, at most one prompt lacks a receipt, and every acknowledged prompt was shown by its session as it was prepared |
| Ownership.Validate | src/orchestration.rs:74-181 | accepts exactly valid manifests that follow a valid previous one |
| Ownership.CheckPacket | src/orchestration.rs:80-108 | the growing sets reject exactly the owners that clash with an earlier one or are malformed |
| Ownership.CheckFollows | src/orchestration.rs:133-178 | accepts exactly the refreshes in which every owner keeps its identity and assignments |
| Ownership.FollowsReflexive | src/orchestration.rs:133-178 | a manifest follows itself |
| Ownership.FollowsTransitive | src/orchestration.rs:133-178 | following is transitive |
| Ownership.BaselineKept | src/orchestration.rs:160-171 | one refresh keeps an owner's baseline and adds only linked work |
| Ownership.SameOwners | src/orchestration.rs:135-151 | no owner appears or disappears |
| Ownership.OwnershipConserved | src/orchestration.rs:133-178 | along any chain of refreshes every owner keeps session, host, title, baseline and assignments |
| Ownership.MutualRefreshIsSame | src/orchestration.rs:1217-1231 | manifests that follow each other hold the same assignments linked the same way |
| Ownership.Split | src/orchestration.rs:185-203 | baseline, repairs and releases partition the assignments |
| Ownership.Cover | src/orchestration.rs:185-203 | the three counts sum to the assignments, and state counts count each class exactly and sum to it |
| Scheduler.SortOrders | src/orchestration.rs:1083-1128 | the admission order is a strict order of all owners |
| Scheduler.OrderFavours | src/orchestration.rs:1086-1130 | producers come first, then owners expedited for a new goal in their order, then owners never reached, then those that have not acknowledged the goal, then whoever waited longest |
| Scheduler.Select | src/orchestration.rs:1054-1147 | chosen owners are distinct, eligible and within capacity; an eligible owner is passed over only on a full host, for better ranked ones |
| Scheduler.Reserve | src/orchestration/driver.rs:829-845 | durable inputs take capacity first, and one is left out only on a full host |
| Scheduler.Admissions | src/orchestration/driver.rs:829-846 | every host keeps to the larger of its limit and its occupants, each owner is admitted at most once, a durable input waits only for a full host, and an owner with new events only for better ranked ones on a full host |
| Json.ValueRoundTrip | src/execution_protocol/mod.rs:162-178 | a printed value parses back to itself before any text that does not continue it |
| Json.PrintThenParse | src/execution_protocol/mod.rs:162-192 | parsing the canonical text of a value gives the value |
| Protocol.SchemaIsOk | src/execution_protocol/mod.rs:71-79 | names in the schema form layers, so matching through them terminates |
| Protocol.MatchedIsPrintable | src/execution_protocol/mod.rs:60-149 | what matches has canonical numbers and bounded nesting |
| Protocol.DecodeIffEncode | src/execution_protocol/mod.rs:162-192 | a frame decodes to a message if and only if the message encodes to the frame |
| Protocol.AcceptedIsMessage | src/execution_protocol/mod.rs:60-192 | an accepted frame is at most 64 KiB of exactly one version 1 message with three keys, a bounded request identity and a body of one of five kinds |
| Protocol.OneFrameEach | src/execution_protocol/mod.rs:162-192 | the wire form is injective in both directions |
| Protocol.CountersAreDecimal | src/execution_protocol/mod.rs:104-108 | counters are exactly the decimal digits of 64-bit naturals, generations the positive ones |
| Comments.SameToken | src/caddy_plugins.rs:122-159 | a token is the same wherever its text stands before a like continuation |
| Comments.TokensAreExact | src/caddy_plugins.rs:113-158 | where strings, indented strings and comments end, and that exactly the comments are blanked |
| Comments.MaskTwice | src/caddy_plugins.rs:108-162 | masking is idempotent, keeps newlines in place and otherwise only blanks |
| Comments.MaskComments | src/caddy_plugins.rs:108-162 | the in-place loop computes the masked text, of the same length |
| PluginsHash.RangesAscend | src/caddy_plugins.rs:164-176 | the values found never overlap, so copying between them is in order |
| PluginsHash.ValuesAreExact | src/caddy_plugins.rs:164-176 | the values found are exactly the quoted texts that markers outside comments assign, each once |
| PluginsHash.SetPluginsHash | src/caddy_plugins.rs:216-227 | replaces exactly the values found outside comments and counts them |
| PluginsHash.OutsideIsKept | src/caddy_plugins.rs:216-227 | no byte outside the values changes |
| PluginsHash.HashIsWritten | src/caddy_plugins.rs:216-227 | every value found reads the new hash |
| PluginsHash.RangesMove | src/caddy_plugins.rs:164-176 | the values of a rewritten text are the rewritten values |
| PluginsHash.MaskThroughSplice | src/caddy_plugins.rs:108-162 | rewriting values inside string tokens leaves the comments where they were |
| PluginsHash.LastWriteWins | src/caddy_plugins.rs:216-227 | writing one hash and then another equals writing the other, with the same count |
| Links.NormalizeLink | src/qualification/seal.rs:205-228 | the component stack computes the lexical resolution |
| Links.Follow | src/qualification/seal.rs:340-348 | following succeeds exactly when it ends, and gives where it ends |
| Links.DetectedIffTidy | src/qualification/seal.rs:333-339 | an entry below a link is noticed if and only if the link's name is tidy and dotted like the entry's |
| Links.NothingBelowLinks | src/qualification/seal.rs:333-339 | an accepted archive has no entry below a tidy link |
| LinkExamples.UntidyLinkIsMissed | src/qualification/seal.rs:333-339 | an accepted archive with an entry below an untidy link |
| Links.Inventory | src/qualification/seal.rs:260-367 | accepts exactly acceptable archives; the result does not depend on the order links are visited in |
| Links.RecordedIsExact | src/qualification/seal.rs:260-331 | an accepted inventory records each regular file with its hash, each link with its text, in version 2 with the hash of that text, and nothing else |
| Links.TargetsEndAtContent | src/qualification/seal.rs:340-366 | following recorded targets ends at a regular file's name, whose hash the link takes in version 1, or in version 2 at a path the check takes for a link-free directory |
| LinkResolution.StackIsExactIffOnDirectories | src/qualification/seal.rs:205-228 | the component stack is where the tree leads, segment by segment, if and only if every segment is taken at a directory and none climbs over a leading `.` |
| LinkResolution.NonDirectoryBreaks | src/qualification/seal.rs:205-228 | where the stack stands on neither a directory nor a link, the link leads nowhere |
| LinkResolution.UndottedIsExact | src/qualification/seal.rs:205-228 | for an undotted name, with directories along the way, exactly the texts that leave the root are refused |
| LinkResolution.StaysInsideIffUndotted | src/qualification/seal.rs:205-228 | with directories along the way, all accepted texts of a name stay inside if and only if it does not start with `.` |
| LinkArchives.AcceptedUnpacks | src/qualification/seal.rs:333-339 | for tidy names dotted alike, and nothing below a file, the check for entries below links is what makes an archive unpack |
| LinkArchives.AcceptedLinkIsExactIff | src/qualification/seal.rs:205-366 | in an accepted archive that unpacks a link leads where the stack says if and only if each `..`, and a last separator, of its text comes after a directory |
| LinkArchives.LinksEndAtContent | src/qualification/seal.rs:340-366 | then resolving every link in the tree ends where the check says: at a regular file, or in version 2 at a directory without links of names dotted alike or at a file with an untidy name |
| LinkExamples.BorrowedParentLeaves | src/qualification/seal.rs:205-228 | an accepted link that leaves the root through another link |
| LinkExamples.FileBeforeUpIsMissed | src/qualification/seal.rs:205-228 | an accepted link that leads nowhere because `..` follows a regular file |
| Graph.Parse | src/qualification/graph.rs:79-128 | accepts exactly documents without duplicates, with roots and without dangling references |
| Graph.Paths | src/qualification/graph.rs:130-148 | finds exactly the reachable nodes, each with an edge chain from a root, and no chain is shorter |

## Left out

- Evidence: the bound on the JSON encoding of a batch, which depends on byte escapes; the running size bound is modelled.
- Evidence: names are ordered by components where the code sorts some lists as text, so the order inside a batch or a
  conflict list may differ; which names occur does not.
- Evidence: the second look at an entry under the pinned parent, which differs from the first only while another writer
  interferes; other writers act between exchanges.
- Evidence: the temporary file that a crash inside one write leaves beside its target, which is then in the tree beside
  what is stated and can keep a later retirement from removing its directory; read errors of the file system.
- Evidence: progress of exchanges towards an equal tree.
- Routes: other writers between the commands of one switch, so that the repeated reservation checks never differ.
- Routes: the reservation check also refuses when the other family's rules or tables are used by somebody else; each
  family is checked on its own here, and a refusal changes nothing.
- Routes: the text of commands and of the JSON rule listing beyond the fields that name a rule, the `direct_devices` set,
  name service and firewall state.
- Operator: the report, the event log and the lock are effects without content; waiting has no duration; removal of the
  request marker by others while a run is active.
- ReviewDispatch: the retry time of a rejection is recorded but not enforced here, because a final check that finds the
  comparison moved saves the run without it; provider evidence and policy evaluation are arbitrary.
- RoborevDispatch: job fields other than those compared are one flag; review documents are arbitrary.
- Audits: one owner at a time, each with its own journal entry; progress reports beyond those that count for terminal and
  finished, recovery and recheck versions, and migration of imported delivery versions.
- Prompts: one owner at a time; context compaction only decides whether a submission happens in a cycle.
- Ownership: white space is ASCII, and values carried without interpretation are text.
- Scheduler: activity and policy are observations; reading them is not modelled.
- Json: text is a sequence of Unicode scalar values with byte lengths computed for UTF-8; numbers outside the 64-bit
  naturals keep their text instead of becoming floating-point values.
- Protocol: a message is its JSON value up to the order of keys; generated record types and capability negotiation.
- PluginsHash: white space around `=` is ASCII; `bump_version` and `extract_plugins` use the same ranges for lists.
- LinkArchives.LinksEndAtContent: only of archives that unpack, because the others have no tree to resolve links in.
- Links: the tar reader, Git's global header and non-UTF-8 names; `export_source` and the sealing steps around the inventory.
- Graph: `parents` and `delta`, which list edges and differences of the parsed metadata.
