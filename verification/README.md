# Verified model of the AssistantSession control plane

A Dafny model of the parts of the repository whose correctness depends on every interleaving, every run or every
input, with the properties proved about it. `dafny verify dfyconfig.toml` checks all of it.

## What is modelled

**The session protocol** (`communication/infra/assistant_sessions.py`, `communication/assistant_session_controller/workers.py`).
An AssistantSession is one Kubernetes object under optimistic concurrency. `ApiServer` is that object as one client
sees it, with anybody else writing between any two requests; `StatusWriter` is the retry loop of
`patch_assistant_session_status` against it. The same loop appears a second time, in `Serialisability`, as any number of
calls interleaved one API request at a time. On top of it stand the VM-assignment lease (`VmAssignment`,
`VmAssignmentCalls`), the release ledger, the signals (`Signals`, and their writers interleaved in `SignalProtocol`) and
the spec update. `VmProtocol` is the whole assignment protocol as a state machine: reconcile passes claim and submit
attempts, workers read the placement, obtain VMs from the pool and try to commit them, and other writers stop, delete
and rebind the session, clear its VM or write an old binding back. `VmPool` is the pool as one assistant meets it: a
binding that has its disk on a VM in the zone is given that VM again, any other an idle one. `VmLease` is the abstract
lease the commits follow, `VmInvariants` what every step keeps, `VmGuarantees` the results about claims and outcomes,
`VmPlaces` and `VmExclusivity` what each step does to where the VMs are, `VmConservation` what that comes to over whole runs,
`VmRuns` and `VmRecovery` what an undisturbed attempt comes to,
`SerialPasses` a reconciler that runs one pass at a time. `VmWorker` and `TaskRuntime` are the worker body and the
in-flight set as classes.

**Capacity** (`adapters/helpers.py`, `communication/assistant_session_controller/pool_controller.py`). `PoolDemand`,
`PoolScopes` and `PoolReconcile` take waiting sessions to physical pools; `JobNames`, `IdlePool` and `PoolMaintenance`
keep the warm pool of runtime jobs at its target; `StaleJobs` decides what happens to old jobs.

**Small stateful components.** `RateLimit`, `Pager`, `Screenshare` and `Conditions` each agree with the full history of
what happened to them.

`Json`, `Sessions`, `StatusPatch`, `Ordering` and `Prelude` are the data and the vocabulary. A small definition that a body
and its contract share has a lemma beside it, mostly named `...Means`, that says what it means on fields and literals alone.

## Where the code does less than its intent

- A VM can be left behind although no request fails: out of the pool under a binding's label, with no worker, and not on
  the session. `persist_binding_vm_assignment_result` answers true wherever the binding has some VM. A pass that submits
  its attempt after another attempt of the binding has stored a VM, and after the placement has moved to another zone, has
  its worker obtain a second VM there and keep it to nobody's knowledge. Under a live binding the placement moves in a race
  only: a `job_start` that read the session before it had an active binding resolves the placement anew
  (`communication/infra/views.py:1419-1440`, `communication/infra/views.py:1514-1541`), and patches the spec after the
  controller has minted the binding and stored its VM.
  `LateSubmission.LateSubmissionLeavesBehind` is such a run. `VmRecovery.LateWorkerLeavesBehind` gives the exact
  condition: the object names another VM for the binding. In one zone this cannot happen, because the pool gives the
  binding its own VM back (`VmRecovery.UndisturbedPersistLeavesBehind`, `VmRecovery.AttemptGetsOwnVm`), and with one pass
  at a time and nothing failing it cannot happen at all (`SerialPasses.SerialReconcilerConserves`).
- A VM can be in two places at once, with a worker and on the object: a late worker of a binding that has its VM adopts
  that very VM, and holds it until its persist call has answered true (`LateSubmission.LateSubmissionAdopts`). Besides
  adoption only a VM given anew while the object still names it, or another writer that names a held one, does this. `VmConservation.VmConservation` says exactly when it is so,
  and `VmConservation.ExactlyOnePlace` that each VM is in exactly one place at every moment if and only if no step leaves
  one behind and none doubles one. It does no harm by itself where the persist call
  answers false: what the worker then hands back is not on the object unless another writer put it there after the worker
  looked (`VmConservation.HandBackSparesTheStored`). A VM rejected for its placement, though, is released even if it is the
  one the object names (`VmConservation.RejectionMayHitTheStored`); the pool answers in the placement asked for, so that
  branch of the worker guards against a reply the pool does not give.
- A session spec update cannot remove a nested key. The merge patch (section 2 of RFC 7396) keeps an old
  `desktop.placement` that the new spec no longer names, however often it is repeated (`SpecUpdate.OldPlacementIsStuck`).
  `SpecUpdate.RepeatedPatchConvergesIff` gives the exact condition, and `SpecUpdate.CreateOrUpdateSession` what the whole
  call makes of it.
- `get_unity_jobs_inventory` documents a filter by environment and relies on the namespace for it, while cleanup filters
  by name. A job created from another environment with this one's namespace and image in the form fields of `/job/create`
  (`communication/infra/views.py:991-994`) carries the caller's name suffix and this environment's image hash. Replenish
  counts it and cleanup does not, so maintenance ends below its target (`PoolMaintenance.ForeignJobHidesShortfall`).
  `PoolMaintenance.MaintenanceLeaves` gives the exact number, `PoolMaintenance.MaintenanceConvergesIff` the condition.
- A condition stored without a type is in the list after a merge exactly if that very merge submitted one
  (`Conditions.UntypedOnlyIfSubmitted`), so it is gone after the next (`Conditions.UntypedIsForgotten`).

## Model

| member | source | states |
|---|---|---|
| ApiServer.Server.ReplaceStatus | communication/infra/assistant_sessions.py:1616-1634 | A status replace lands only on the version whose resource version was read, changes nothing but the status, and a conflict means the version moved on; a failed request may or may not have landed |
| ApiServer.Server.Create | communication/infra/assistant_sessions.py:1306-1316 | A creation lands only where there is no object |
| ApiServer.Server.PatchSpec | communication/infra/assistant_sessions.py:1338-1355 | A spec patch lands only on the version read, and what lands is the RFC 7396 merge of the spec into it |
| StatusWriter.NextStatus | communication/infra/assistant_sessions.py:1530-1614 | One pass of the loop body, assigning `next_status` field after field, the ledger and the clearing of signals last, comes to what the reference function says at once: return unchanged, raise, or write one full next status |
| StatusPatch.WrittenFields | communication/infra/assistant_sessions.py:1545-1582 | Field by field: a write takes each plain field from the argument where one is given, and from the version read otherwise |
| StatusPatch.GuardsStop | communication/infra/assistant_sessions.py:1534-1543 | On another binding than the expected one, or where Running is required of a version being deleted or whose spec names any other state, nothing is written |
| StatusPatch.GuardsPass | communication/infra/assistant_sessions.py:1534-1543 | On the expected binding, not being deleted, and with a missing, empty or "Running" desired state, the guards make no difference |
| StatusWriter.LandedAtomically | communication/infra/assistant_sessions.py:1616-1631 | Resource versions never repeat, so a replace that matched replaced the very state that was read |
| StatusWriter.AttemptOnce | communication/infra/assistant_sessions.py:1528-1642 | One turn asks for one write at most, and a write that lands is one atomic pass over the version it replaced; a conflict means somebody else's write landed in between |
| StatusWriter.PatchStatus | communication/infra/assistant_sessions.py:1526-1668 | The whole call, under any interference: one atomic write on the version it replaced, or no write at all with the version last looked at returned; giving up with a conflict means three write requests and three foreign writes, and raising a request error means a failed request |
| Serialisability.StepKeeps | communication/infra/assistant_sessions.py:1526-1668 | Every step of every interleaving keeps the invariant that ties each call's snapshot and outcome to the commit order |
| Serialisability.Serialisable | communication/infra/assistant_sessions.py:1526-1668 | Any interleaving of retrying updates and foreign writes ends in the state reached by running the committed ones atomically in commit order |
| Serialisability.EachCallOnce | communication/infra/assistant_sessions.py:1526-1668 | A finished call is in the commit order once if its write landed and not at all otherwise, and returned a state the object really was in |
| Serialisability.RunDecided | communication/infra/assistant_sessions.py:1530-1614 | Every commit of a call is one the call, run alone on the state before it, would decide to write |
| Serialisability.UndisturbedCallLands | communication/infra/assistant_sessions.py:1526-1668 | A call that nobody disturbs does at once what it would do run alone, and returns the object as it then is |
| Serialisability.ConflictMeansProgress | communication/infra/assistant_sessions.py:1632-1642 | A call that raises a conflict wrote nothing, and at least three other commits landed since it began |
| VmAssignmentCalls.Claim | communication/infra/assistant_sessions.py:1794-1850 | A claim returns its id exactly when its own write landed; the version it replaced was on the target binding, not terminating, with no desired state but "Running", without a VM, and with no assignment in progress younger than the limit; what changes is the assignment alone. None without a write means the version looked at was not so; it raises only for a failed request or three foreign writes |
| VmAssignmentCalls.ClaimAnswerOfSnapshot | communication/infra/assistant_sessions.py:1837-1850 | A claim that did not write cannot read its own id anywhere, so it answers None |
| VmAssignmentCalls.Persist | communication/infra/assistant_sessions.py:1853-1926 | An outcome lands only on a Running version, not terminating, whose assignment in progress is this attempt's: "assigned" stores exactly the VM and its secret, stamps both assignment times and clears the assignment, the URL, the ready and the release fields; any other state changes the assignment alone. A landed one is answered true; an answer without a write is read off a version that called for none; the call raises only for a failed request, three foreign writes, or an outcome without its VM |
| VmAssignmentCalls.AnswerMeans | communication/infra/assistant_sessions.py:1915-1926 | True for "assigned": stored by this call, or some VM was on the binding before; false: there the lease was no longer this attempt's |
| VmLease.OneOutcomePerAttempt | communication/infra/assistant_sessions.py:1870-1876 | In a legal history an attempt id commits a second outcome only after another writer put that attempt's lease back in between; a mere clearing does not do it |
| VmLease.SupersededNeverCommits | communication/infra/assistant_sessions.py:1870-1876 | Once a binding's lease is taken over, the earlier attempt never commits, unless another writer put that attempt's lease back since |
| VmLease.OwnedIsFinal | communication/infra/assistant_sessions.py:1808-1811 | Until another writer touches it, nothing is committed on a binding that has its VM: no later claim, no later outcome |
| VmLease.VacatedBetweenAssignments | communication/infra/assistant_sessions.py:1877-1894 | Between two VMs committed for one binding lies a write by somebody else that took the first one off it |
| VmLease.ClaimsAreSpaced | communication/infra/assistant_sessions.py:1811-1817 | In a legal history two claims of a binding with no outcome and no rewriting between them are at least `stale_after_seconds` after the first one's recorded `observedAt` |
| VmInvariants.StepKeeps | communication/assistant_session_controller/workers.py:222-394 | Every step of passes, workers, pool and other writers, the clearing and the putting back of a VM among them, keeps the invariant: snapshots, lease, claims, in-flight keys, and whose every labelled VM is |
| VmInvariants.RunKeeps | communication/assistant_session_controller/workers.py:222-394 | The invariant holds after any run |
| VmGuarantees.SingleWinner | communication/infra/assistant_sessions.py:1794-1926 | Over any run: unless another writer put that very lease back in between, one outcome an attempt and none from a superseded attempt; and between two VMs assigned to one binding another writer took the first off it |
| VmGuarantees.OneOutcomeUnlessRestored | communication/infra/assistant_sessions.py:1870-1876 | Over any run in which nobody puts a claim back, however often leases are cleared: an attempt commits at most one outcome, a superseded one none |
| VmGuarantees.GuardsHoldAtCommit | communication/infra/assistant_sessions.py:1534-1543 | Every claim and outcome of any run replaced a version on the target binding, not terminating, whose spec names no desired state but "Running", without a VM, and every outcome one whose assignment in progress was its own attempt's |
| VmGuarantees.AdmittedExactlyIfCurrent | communication/assistant_session_controller/workers.py:179-190 | A worker goes on exactly if the session is there, on its binding, not terminating, and its spec does not say "Stopped" |
| VmGuarantees.PlacementReadDecides | communication/assistant_session_controller/workers.py:242-282 | A placement of the catalog is asked for in its zone, none is refused, and one outside the catalog ends the worker |
| VmGuarantees.LeasesAreSpaced | communication/infra/assistant_sessions.py:1811-1817 | The spacing of claims over any run of the protocol, whatever stops, deletions and rebinds raced with it |
| VmGuarantees.VmRefWasCommitted | communication/infra/assistant_sessions.py:1877-1894 | A VM on the object is one the pool claimed for that very binding, and the last thing that happened to the binding's lease put it there |
| VmGuarantees.ClaimAnswersTruthfully | communication/infra/assistant_sessions.py:1837-1850 | In every reachable state a claim is won exactly if its write is in the history, and one that answered None has none |
| VmGuarantees.TakeoverExactlyWhenStale | communication/infra/assistant_sessions.py:1809-1826 | In every reachable state an undisturbed claim succeeds exactly on a binding that runs and has no VM, and whose lease, if taken, is stale, and then leaves its own lease, stamped with the present time: an abandoned claim can always be taken over |
| VmGuarantees.KeysAreUnfinishedTasks | communication/assistant_session_controller/workers.py:76-143 | The in-flight key set is exactly the keys of accepted, unfinished tasks, one to a key |
| VmPlaces.LeftBehindByMishap | communication/assistant_session_controller/workers.py:283-355 | In every reachable state the set of VMs left behind changes by the listed mishaps and recoveries and by nothing else |
| VmConservation.VmConservation | communication/assistant_session_controller/workers.py:222-394 | After any run: an assigned VM is with a worker of its binding or on the object under it, unless a mishap left it behind and nothing has found it since; it is with one worker at most; and it is in both places exactly if its worker was given a VM the object named already, or another writer named the one it held, and nothing has parted the two since |
| VmConservation.ConservedExactlyIfMishapFree | communication/assistant_session_controller/workers.py:222-394 | A run leaves no VM behind at any moment exactly if none of its steps is a mishap |
| VmExclusivity.DoubledByStep | communication/assistant_session_controller/workers.py:283-355 | In every reachable state a worker comes to hold what the object shows only by being given it or by another writer's hand, and ceases to by letting go or by another writer's hand |
| VmExclusivity.ShownAgainByStep | communication/assistant_session_controller/workers.py:338-355 | In every reachable state the object comes to name a VM that a worker will hand back only by another writer's hand, after the worker looked |
| VmConservation.ExactlyOnePlace | communication/assistant_session_controller/workers.py:222-394 | At every moment of a run each assigned VM is in exactly one place, with one worker or on the object, if and only if no step is a mishap and none doubles |
| VmConservation.HandBackSparesTheStored | communication/assistant_session_controller/workers.py:338-355 | After any run, the hand-back after a false answer puts a VM into release that the object shows exactly if another writer put it there after the worker's last look |
| VmConservation.RejectionMayHitTheStored | communication/assistant_session_controller/workers.py:291-315 | After any run, a rejected VM that is released is one the object shows exactly if the object names it for the worker's binding |
| SerialPasses.SerialReconcilerConserves | communication/assistant_session_controller/workers.py:193-219 | With one pass at a time, nothing failing, and nobody putting a VM or a claim back or taking a VM off before its release, each assigned VM is in exactly one place at every moment of any interleaving |
| SerialPasses.SerialNeverDoubles | communication/assistant_session_controller/workers.py:193-219 | With one pass at a time and nobody putting a VM or a claim back, whatever fails, no worker ever holds a VM that the object shows for its binding |
| SerialPasses.SerialAnswerIsOwnWrite | communication/infra/assistant_sessions.py:1915-1921 | In such a run, whatever fails, a persist call of a VM that answers true has stored that very VM |
| VmRecovery.UndisturbedPersistLeavesBehind | communication/infra/assistant_sessions.py:1915-1921 | In every reachable state an undisturbed persist of a VM leaves it behind exactly if the object names another VM for the binding; where that one is still a desk, exactly if the two lie in different zones |
| VmRecovery.LateWorkerLeavesBehind | communication/assistant_session_controller/workers.py:193-219 | A won id handed over at any later time: undisturbed, its worker's VM is left behind exactly if the object names another one for the binding by then |
| VmRecovery.AttemptGetsOwnVm | communication/infra/vm_helpers.py:2528-2561 | In every reachable state the pool gives a worker a VM its binding has already exactly if it is the binding's desk in the zone asked for, and then no other |
| VmRecovery.NextAttemptRecovers | communication/infra/vm_helpers.py:2536-2544 | A VM left behind with the assistant's disk, whatever left it, is stored by the next undisturbed attempt of its binding in its zone |
| LateSubmission.LateSubmissionLeavesBehind | communication/infra/assistant_sessions.py:1915-1921 | A concrete run, two passes, a moved placement and one late submission, in which no request fails and a VM is left behind |
| LateSubmission.LateSubmissionAdopts | communication/infra/vm_helpers.py:3940-3966 | The same run without the move: the late worker adopts the stored VM, which is in both places until the persist call answers true |
| VmWorker.RunVmAssignment | communication/assistant_session_controller/workers.py:222-394 | One worker, with others using the session and the pool between any two of its requests: skipped exactly where its binding was not current, or a placement or the secret unreadable. Otherwise its requests to the pool (preparing a move, asking for a VM, releasing it, replenishing) and its persist calls, in order, are those of its fate; where the session names a placement a VM is asked for there, unless the session's VM is in another region and its move could not be prepared; and it wrote nothing else to the session |
| VmWorker.IsCurrent | communication/assistant_session_controller/workers.py:179-190 | True exactly of a session that is there, on the binding, not terminating, and whose spec does not say "Stopped" |
| VmWorker.Settle | communication/assistant_session_controller/workers.py:283-355 | A VM at the requested placement goes to the persist call, any other is rejected |
| VmWorker.ReportRefusal | communication/assistant_session_controller/workers.py:356-394 | Each kind of refusal is reported by one persist call of its own state and message; a capacity refusal of a placed session replenishes the pool first and goes unreported exactly where that raises |
| VmWorker.RejectVm | communication/assistant_session_controller/workers.py:291-315 | A VM at the wrong place is handed back in the scope of its own placement, unless that cannot be read; then the pool is replenished and, unless that raises, capacity reported with the text that says which; a failing release changes neither |
| VmWorker.CommitVm | communication/assistant_session_controller/workers.py:316-355 | The VM is kept where the persist call answers true, handed back where it answers false even if that release fails, and where it raises, that error is reported |
| VmWorker.Report | communication/assistant_session_controller/workers.py:356-394 | One persist call of exactly this result, which if it lands replaces this attempt's own lease by that state and message |
| VmWorker.OutUnlessReleased | communication/assistant_session_controller/workers.py:300-354 | The pool gave the VM for the binding; after the worker's release, if it went through, it is no longer assigned, and every other VM is as that request found it |
| TaskRuntime.Runtime.Submit | communication/assistant_session_controller/workers.py:62-107 | Accepts exactly if no accepted, unfinished task has the key |
| TaskRuntime.Runtime.Finish | communication/assistant_session_controller/workers.py:126-155 | The done callback frees the key of its own task and no other |
| TaskRuntime.Runtime.Stats | communication/assistant_session_controller/workers.py:157-159 | The count is the number of unfinished tasks |
| ReleaseLedger.BoundedEqualsUnbounded | communication/infra/assistant_sessions.py:425-440 | Cutting to twenty at every upsert gives what cutting the full move-to-back history once gives, and ids stay unique |
| ReleaseLedger.LookupReturnsLatest | communication/infra/assistant_sessions.py:393-405 | A recorded id is found, with its latest entry, exactly until twenty other ids have been recorded since |
| ReleaseLedger.RecordReleasedBinding | communication/infra/assistant_sessions.py:1671-1711 | Under any interference, a recorder that writes upserts into the very version it replaces; one that does not had nothing to change, or met three conflicts or a failed request |
| ReleaseLedger.ConcurrentRecordersLoseNothing | communication/infra/assistant_sessions.py:1693-1701 | In any interleaving the ledger is the last twenty of the full history of all entries that landed, in commit order |
| Signals.RecordSignal | communication/infra/assistant_sessions.py:1714-1744 | The call is one status write of the map read before the retry loop, however old, with the one signal set, its source filled in, or removed, and all else unchanged; a call that returned, nobody else having written after that read, leaves exactly the payload under its name, or no such name |
| Signals.RebindClearsSignals | communication/infra/assistant_sessions.py:1583-1590 | A write that changes the binding id without naming the signals clears them; one that keeps the id keeps them |
| SignalProtocol.StepKeeps | communication/assistant_session_controller/controller.py:328-343 | Every step keeps all maps, stored, held or about to be written, made of recorded signals |
| SignalProtocol.SignalsAreRecorded | communication/infra/assistant_sessions.py:1725-1744 | In any interleaving of recorders, passes and updates, with maps written back however late, every signal on the object was recorded by a call begun before, or there from the start |
| SignalProtocol.AcceptedSignalsAreFenced | communication/assistant_session_controller/binding_ops.py:169-187 | A signal accepted for a binding was recorded by a call begun after any moment at which that binding's id was not drawn yet: no map read or patch prepared on an earlier binding feeds a later one |
| SpecUpdate.CreateTurn | communication/infra/assistant_sessions.py:1305-1336 | A missing object is created with the spec; after a conflict only a matching, non-terminating object is returned; the turn fails only if its request did |
| SpecUpdate.PatchTurn | communication/infra/assistant_sessions.py:1338-1371 | The spec is merged into the version read, which was not terminating, and the turn ends the call exactly if that matches; a conflict means a foreign write |
| SpecUpdate.CreateOrUpdateSession | communication/infra/assistant_sessions.py:1273-1381 | A normal return is a state the object was in during the call, not terminating, with the requested value under every key but "requestedAt"; "terminating" and "not converged" are about such a state, the latter after three requests; a conflict means a foreign write that deleted or created the object or came in the way of one of three requests; a failure means exactly that a request failed. No write of the call lands on a terminating session. Undisturbed, with no request failing, the call returns normally exactly if the object was missing, matched, or every requested field absorbs what was stored |
| SpecUpdate.AfterConflict | communication/infra/assistant_sessions.py:1353-1371 | After a conflict the object is read again: gone raises the conflict, terminating raises, anything else is the next version to patch |
| SpecUpdate.AfterCreateConflict | communication/infra/assistant_sessions.py:1325-1336 | After a create conflict the object is read again: gone is tried again, terminating raises, a matching one is returned, any other raises the conflict |
| Json.MergedMember | communication/infra/assistant_sessions.py:1338-1350 | RFC 7396 member by member, as the API server merges the spec: null deletes, a missing member keeps what was there, an object is merged into what was there, anything else replaces it |
| SpecUpdate.MergeGivesPatch | communication/infra/assistant_sessions.py:1338-1352 | A merge gives back the patch exactly if the patch has no null and the target no member the patch lacks, at any depth |
| SpecUpdate.PatchConvergesIff | communication/infra/assistant_sessions.py:1240-1248 | One undisturbed patch makes the object match exactly if every requested field overwrites all that is stored under it |
| SpecUpdate.RetryingDoesNotHelp | communication/infra/assistant_sessions.py:1293-1371 | What one patch left standing the next leaves standing too |
| SpecUpdate.RepeatedPatchConvergesIff | communication/infra/assistant_sessions.py:1293-1371 | However often it is repeated, the patch makes the object match exactly if every requested field overwrites all that was stored under it |
| SpecUpdate.OldPlacementIsStuck | communication/infra/assistant_sessions.py:1229-1230 | Whatever else the two specs hold and however often the patch is repeated, a stored placement that the requested desktop does not name keeps the object from ever matching |
| Conditions.MergeConditions | communication/infra/assistant_sessions.py:1466-1479 | The merged list shows the folded table in order of type, one entry per type |
| Conditions.ConditionHistory | communication/infra/assistant_sessions.py:1470-1479 | After any sequence of merges the list is sorted and unique by type, names exactly the types submitted, and each entry, transition time included, is the update that opened the latest unbroken run of equal content |
| Conditions.RemergeIsANoOp | communication/infra/assistant_sessions.py:1471-1478 | Merging the same updates again changes nothing |
| Conditions.UntypedOnlyIfSubmitted | communication/infra/assistant_sessions.py:1466-1470 | An entry without a type is in the merged list exactly if this very merge submitted one |
| Conditions.UntypedIsForgotten | communication/infra/assistant_sessions.py:1466-1470 | One that was stored is gone after the next merge |
| PoolDemand.PendingVmDemand | communication/assistant_session_controller/pool_controller.py:112-130 | The count of waiting sessions per VM type, for exactly the supported types |
| PoolDemand.PendingVmDemandByPool | communication/assistant_session_controller/pool_controller.py:133-169 | Demand by type and placement, and the invalid placements, as the reference fold over the sessions |
| PoolDemand.DemandedIsDictionary | communication/assistant_session_controller/pool_controller.py:138-169 | No two entries share type and placement, none is empty, all types are supported |
| PoolDemand.DemandedIsExact | communication/assistant_session_controller/pool_controller.py:133-169 | Each entry counts exactly the waiting sessions of its type that name its placement, and every such session has an entry |
| PoolDemand.WaitsMeans | communication/assistant_session_controller/pool_controller.py:116-126 | A session waits exactly if it is not terminating, its spec names no desired state but "Running", its desktop is required, it has no VM, and its phase is PendingVM |
| PoolScopes.PoolZoneScopes | communication/assistant_session_controller/pool_controller.py:178-206 | Scopes are exactly the pools in demand and the default pools; each is represented by an explicit placement whenever any session named one there; a pool's demand is all that was asked of its zone |
| PoolScopes.PoolsKeepDemand | communication/assistant_session_controller/pool_controller.py:199-203 | Collapsing placements onto physical pools keeps the demand of every type |
| PoolScopes.DemandIsConserved | communication/assistant_session_controller/pool_controller.py:112-206 | For each VM type, zone demand summed over all pools plus sessions with invalid placement is the aggregate pending count |
| PoolScopes.MisplacedAreReported | communication/assistant_session_controller/pool_controller.py:154-166 | Each waiting session with a placement outside the catalog is reported by its assistant id with its error, in order and as often as it is listed, and no other is |
| PoolReconcile.ScopesAreWellScoped | communication/assistant_session_controller/pool_controller.py:178-206 | A scope's representative lies in the zone of its pool |
| PoolReconcile.KeysAreDistinct | communication/assistant_session_controller/pool_controller.py:172-175 | No two scopes of a cycle share a result key |
| PoolReconcile.ReconcilePools | communication/assistant_session_controller/pool_controller.py:301-349 | Every scope is served exactly once in key order whatever fails, told the whole demand of its physical pool, the same for replenish and trim, and has its own record |
| JobNames.EarlierIsSooner | adapters/helpers.py:2574-2579 | Comparing date fields in order is comparing moments |
| JobNames.DateOfJobName | adapters/helpers.py:2566-2577 | The date is read back from a job's name exactly if its id and suffix have no part that looks like a date field |
| JobNames.NamesFollowTime | adapters/helpers.py:2567-2590 | Of two job names the earlier job's comes first; only equal stamps leave the order to the rest |
| IdlePool.TargetFor | adapters/helpers.py:2234-2250 | The target is the floor or the demand buffer b, whichever is larger, with running <= factor * b < running + factor for a positive factor |
| IdlePool.BucketsRefineOneSort | adapters/helpers.py:2562-2590 | Sorting the three age buckets separately and concatenating is one descending sort of all names |
| IdlePool.RetainsUpToTarget | adapters/helpers.py:2591-2594 | Cleanup keeps min(target, matching) jobs, whatever their names, and for a negative target what Python's slice leaves |
| IdlePool.KeepsTheNewest | adapters/helpers.py:2559-2594 | Cleanup never gives up a job newer than one it keeps |
| PoolMaintenance.Inventory | adapters/helpers.py:2303-2329 | Running and idle jobs, each once, whatever the order of the listing |
| PoolMaintenance.PartitionByHash | adapters/helpers.py:2360-2375 | Every job on exactly one side; with an unknown hash all match |
| PoolMaintenance.JobCluster.Delete | adapters/helpers.py:2487-2517 | Each deletion request is independent; a refused one changes nothing |
| PoolMaintenance.Replenish | adapters/helpers.py:2378-2484 | Creates exactly the shortfall of jobs on the current hash to the effective target |
| PoolMaintenance.Trim | adapters/helpers.py:2557-2605 | The quota part of cleanup deletes the matching jobs that are not retained, except refused ones |
| PoolMaintenance.Cleanup | adapters/helpers.py:2520-2617 | The pool afterwards, and the report; a name without a date raises after the stale jobs were deleted and before any other is |
| PoolMaintenance.ReplenishFillsTheGap | adapters/helpers.py:2407-2412 | Jobs on the current hash end at max(before, effective target) |
| PoolMaintenance.CleanupKeeps | adapters/helpers.py:2540-2605 | With no request refused, min(target, matching) idle jobs of this environment remain, all on the current hash, and no other job is touched |
| PoolMaintenance.MaintenanceLeaves | adapters/main.py:6684-6695 | Replenish then cleanup leaves the target at most, and exactly so many fewer jobs as other environments' jobs on the current hash hide |
| PoolMaintenance.MaintenanceConvergesIff | adapters/main.py:6684-6695 | Replenish then cleanup leaves exactly target jobs if and only if this environment had enough already or other environments' jobs do not hide the shortfall |
| PoolMaintenance.ForeignJobHidesShortfall | adapters/helpers.py:2314-2412 | A listed job created from another environment on the current hash keeps a pool that wants one job empty |
| PoolMaintenance.SoleEnvironmentConverges | adapters/main.py:6684-6695 | Where only this environment has jobs on the current hash, the pair leaves exactly target from any starting pool |
| StaleJobs.ClassifyStaleRunning | adapters/helpers.py:1644-1713 | The chain of checks equals three independent definitions: may be in use, stop is due, safe to delete |
| StaleJobs.EveryNamedJobOnce | adapters/helpers.py:1666-1713 | Safe-delete plus deferred is, as a multiset, exactly the named stale jobs |
| StaleJobs.KeepHolds | adapters/helpers.py:1666-1713 | A name is on a list exactly if some listed job of that name qualifies |
| StaleJobs.StopsAreDueAndDeferred | adapters/helpers.py:1711-1712 | An assistant is stopped exactly if one of its jobs is due, and the job named is due and also deferred |
| StaleJobs.BoundJobIsSafe | adapters/helpers.py:1686-1712 | The job an inspected, non-terminal session is bound to is not deleted under that session's id; a stop implies no call and no stop under way |
| StaleJobs.BoundJobIsDeletedIff | adapters/helpers.py:1666-1713 | The job that an inspected, non-terminal session is bound to is deleted exactly if it is listed under a label that disowns it: none, a session that is gone, or one read to be over or bound elsewhere; that session's own label never does |
| RateLimit.RateLimiter.Dispatch | adapters/main.py:381-395 | A request is admitted exactly if the client's full unpruned history holds fewer than the limit in the window, and other clients are untouched |
| RateLimit.PrunedCountsAsUnpruned | adapters/main.py:384-387 | The pruned list counts, in every window still to come, what the full history counts |
| RateLimit.NoBurst | adapters/main.py:381-395 | In any run on a monotone clock no half-open interval as long as the window holds more than the limit of one client |
| RateLimit.RecentCounts | adapters/main.py:386 | The filtered list has as many entries as there are admissions after the window start |
| Pager.ListScheduledAssistants | adapters/main.py:6000-6012 | Ends against any server, with at most one page more than there are ids: at a page that is short or brings no new id; it has no answer exactly if a page request failed; with distinct ids and a positive limit it returns the whole fleet once and in order, from a server that pages and from one that ignores paging |
| Pager.MergedHasEveryId | adapters/main.py:6004-6008 | Merging loses no id that any page had and invents none |
| Pager.NextHonoured | adapters/main.py:6003-6011 | Against a paging server each page is all new and extends the prefix of the fleet |
| Screenshare.ScreenshareRelay.ScreenshareOn | communication/meet_screenshare.py:133-135 | Refines the event history by one on event |
| Screenshare.ScreenshareRelay.ScreenshareOff | communication/meet_screenshare.py:137-141 | Refines the event history by one off event |
| Screenshare.ScreenshareRelay.HandleFrame | communication/meet_screenshare.py:147-185 | Stores the frame exactly if it is the focused sharer's, no write is in flight and the interval has passed |
| Screenshare.ScreenshareRelay.FinishWrite | communication/meet_screenshare.py:182-183 | The end of a write, successful or not, frees the slot |
| Screenshare.SharersAreOrderedByStart | communication/meet_screenshare.py:133-145 | After any events the sharer list has no repetition, holds exactly those whose last on-or-frame follows their last off, ordered by the start of the current share |
| Screenshare.WritesAreFocusedAndSpaced | communication/meet_screenshare.py:161-185 | Every stored frame was the focused sharer's when it arrived; any two starts are an interval apart with the earlier write done in between |

## Left out

- Kubernetes, GCP, HTTP and the pool helpers (`assign_pool_vm`, `release_pool_vm`, `replenish_pool`, `trim_pool`) are steps
  of the environment, as far as `VmPool` describes them: which VM a call may answer, that it may raise after it claimed
  one, that releases may fail, and that anybody may release or remove a labelled VM at any time. Which idle VM is chosen,
  and VMs of other assistants, are not modelled.
- VmRecovery.NextAttemptRecovers: is about VMs with the assistant's disk, because a VM whose torn assignment did not get
  that far is not found by the next attempt (`VmRecovery.AttemptGetsOwnVm`); the sweeper that finds it by its label is one
  of the releasing steps.
- VmWorker.CommitVm: a persist call that raises is reported as "error", where the code reports a ValueError as capacity;
  none is raised for an outcome that names its VM.
- The API server is assumed to refuse a replace without a resource version or of a missing object, and a write that
  changes nothing still makes a new version.
- The reconcile loop is an environment that may rewrite anything: it stops, deletes and rebinds the session, clears the VM
  or the assignment of a binding that stays, and writes an older binding back. It makes nothing up: a VM it shows on a
  binding is one the pool claimed for that binding, a claim it shows was committed once, and it never shows a VM and an
  assignment together; attempt ids are drawn that nobody has.
- A fresh binding id is one that no recorded signal names: the ids are random. Signals may name any other text.
- SignalProtocol.AcceptedSignalsAreFenced: is about bindings whose id was drawn by the code; of an id that only an outside
  writer put on the object nothing is promised.
- The executor accepts every task handed to it; a refused `executor.submit` would leave its key in the set.
- A claim without a readable `observedAt` is never stale in the code; claims made by the code always carry one, so the
  protocol's leases do.
- Losslessness of concurrent signal writes does not hold, because the read lies outside the retry loop; fencing is proved.
- `releaseRequestedAt`, `releaseCompletedAt` and `releaseGeneration` as monotone fields: an assignment clears two of them
  on purpose.
- `binding_payload` and the other builders that override chosen fields of a binding, and the bootstrap Secret, which has
  the same compare-and-swap shape as the session: they would only add easy members.
- Observability events, causal contexts, metrics and log messages.
- What a cross-region migration does, and the `regionalMigration` note on the VM reference: in `VmWorker` its preparation
  succeeds, or raises and is reported by the kind of the exception, as a refusal to give a VM is.
- `sync_active_assistant_ip_reports`, `pending_job_demand` and the scheduling of job replenishment in a pool cycle.
- Stripping of location fields knows ASCII white space, and fields that are not text read as empty.
- The lookback window of the job listing, and listings that fail; names drawn for new jobs are taken to be new, since
  Kubernetes refuses a name twice.
- Stability between reactive `extra_demand` and cleanup, which ignores it by design.
- The retries inside one page request (a page arrives or the listing fails), and a listing without a limit, which is one
  request.
- PoolMaintenance.MaintenanceConvergesIff: is about pools whose jobs on the current hash have dated names and where no
  request is refused, because one undated name makes cleanup raise before its quota part.
- VmProtocol.Step: one binding's worker runtime and one task type; several controller processes with a runtime each are
  not one runtime, and the in-flight set would not be shared.
