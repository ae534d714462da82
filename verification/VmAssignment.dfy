/** The VM-assignment lease on a binding: claiming an attempt, and persisting its outcome. */
module VmAssignment {
  import opened Prelude
  import opened Sessions
  import opened StatusPatch
  import Json

  /** `_signal_dict_age_seconds` of the stored assignment is unknown, or below the limit. */
  predicate StillFresh(assignment: VmAssignment, staleAfter: Time, now: Time) {
    assignment.observedAt.None? || now - assignment.observedAt.value < staleAfter
  }

  /** A claim may be written over this binding. */
  predicate Claimable(binding: Binding, staleAfter: Time, now: Time) {
    && binding.vmRef.None?
    && !(&& binding.vmAssignment.Some?
         && binding.vmAssignment.value.state == IN_PROGRESS
         && StillFresh(binding.vmAssignment.value, staleAfter, now))
  }

  predicate HeldBy(binding: Binding, attemptId: string) {
    && binding.vmAssignment.Some?
    && binding.vmAssignment.value.state == IN_PROGRESS
    && binding.vmAssignment.value.attemptId == attemptId
  }

  function OverrideId(binding: Binding, target: string): Binding {
    if target == "" then binding else binding.(id := target)
  }

  function ClaimMutation(binding: Binding, target: string, attemptId: string, observedAt: Time, staleAfter: Time,
      now: Time): Mutation<Binding> {
    if !Claimable(binding, staleAfter, now) then Keep
    else Next(OverrideId(binding, target).(vmAssignment := Some(VmAssignment(IN_PROGRESS, attemptId, Some(observedAt),
        ""))))
  }

  function ClaimPatch(target: string, attemptId: string, observedAt: Time, staleAfter: Time): Patch {
    NOTHING.(
      expectedBindingId := Set(target),
      requireDesiredState := Set(RUNNING),
      bindingMutator := Some((_: Session, binding: Binding, now: Time) =>
        ClaimMutation(binding, target, attemptId, observedAt, staleAfter, now)))
  }

  /** The answer of a claim, from the object its status update returned: the id, or None. */
  function ClaimAnswer(updated: Option<Session>, target: string, attemptId: string): Option<string> {
    var session := OrEmpty(updated);
    if session.status.binding.id != target || DesiredState(session) != RUNNING
        || session.status.binding.vmRef.Some? then None
    else if HeldBy(session.status.binding, attemptId) then Some(attemptId)
    else None
  }

  /** What a worker reports for a session that names no placement. */
  const NO_PLACEMENT :=
    "Desktop assignment requires a complete AssistantSession placement; refusing the default pool location"

  /** One outcome to persist: `vmRef` and `desktopSecret` matter only to "assigned". */
  datatype Result = Result(state: string, message: string, vmRef: Option<VmRef>, desktopSecret: string)

  predicate HasVm(result: Result) {
    result.vmRef.Some? && result.vmRef.value.name != ""
  }

  function PersistMutation(binding: Binding, target: string, attemptId: string, result: Result,
      observedAt: Time): Mutation<Binding> {
    if !HeldBy(binding, attemptId) then Keep
    else if result.state == ASSIGNED then
      if !HasVm(result) then Fault
      else
        Next(OverrideId(binding, target).(
               vmAssignment := None,
               vmRef := result.vmRef,
               desktopUrl := "",
               desktopSecret := result.desktopSecret,
               vmAssignedAt := Some(observedAt),
               guestHandshakeStartedAt := Some(observedAt),
               vmReadyObservedAt := None,
               vmReadyHostname := "",
               vmReadyMessageId := "",
               releaseRequestedAt := None,
               releaseCompletedAt := None))
    else
      Next(OverrideId(binding, target).(
             vmAssignment := Some(VmAssignment(result.state, attemptId, Some(observedAt), result.message))))
  }

  function PersistPatch(target: string, attemptId: string, result: Result, observedAt: Time): Patch {
    NOTHING.(
      expectedBindingId := Set(target),
      requireDesiredState := Set(RUNNING),
      bindingMutator := Some((_: Session, binding: Binding, _: Time) =>
        PersistMutation(binding, target, attemptId, result, observedAt)))
  }

  /** What `persist_binding_vm_assignment_result` returns, from the object its status update returned. */
  predicate PersistAnswer(updated: Option<Session>, target: string, attemptId: string, state: string) {
    var binding := OrEmpty(updated).status.binding;
    && binding.id == target
    && if state == ASSIGNED then
         binding.vmRef.Some? && binding.vmRef.value.name != "" && binding.vmAssignment.None?
       else
         binding.vmAssignment.Some? && binding.vmAssignment.value.attemptId == attemptId
             && binding.vmAssignment.value.state == state
  }

  /** The session is Running, not being deleted, and still has the binding the caller means. */
  predicate Live(session: Session, target: string) {
    && session.status.binding.id == target
    && DesiredState(session) == RUNNING
    && !session.terminating
  }

  function WithBinding(session: Session, binding: Binding): Status {
    session.status.(binding := binding)
  }

  /** The binding a claim leaves behind: it differs in the assignment only. */
  function ClaimedBinding(binding: Binding, attemptId: string, observedAt: Time): Binding {
    binding.(vmAssignment := Some(VmAssignment(IN_PROGRESS, attemptId, Some(observedAt), "")))
  }

  /** The binding an outcome leaves behind: the VM for "assigned", the reason for anything else. */
  function PersistedBinding(binding: Binding, attemptId: string, result: Result, observedAt: Time): Binding {
    var mutation := PersistMutation(binding, "", attemptId, result, observedAt);
    if mutation.Next? then mutation.value else binding
  }

  /** Where a claim writes: a live session whose lease is free or stale. */
  function ClaimDecided(stored: Option<Session>, target: string, attemptId: string, observedAt: Time, staleAfter: Time,
      now: Time): Decision {
    var session := OrEmpty(stored);
    var next := ClaimedBinding(session.status.binding, attemptId, observedAt);
    if Live(session, target) && Claimable(session.status.binding, staleAfter, now) && next != session.status.binding
    then Write(WithBinding(session, next)) else ReturnCurrent
  }

  /** Where an outcome is written: a live session whose lease is still this attempt's. */
  function PersistDecided(stored: Option<Session>, target: string, attemptId: string, result: Result,
      observedAt: Time): Decision {
    var session := OrEmpty(stored);
    var next := PersistedBinding(session.status.binding, attemptId, result, observedAt);
    if !Live(session, target) || !HeldBy(session.status.binding, attemptId) then ReturnCurrent
    else if result.state == ASSIGNED && !HasVm(result) then Raise
    else if next == session.status.binding then ReturnCurrent
    else Write(WithBinding(session, next))
  }

  /** The retry loop, given a claim's guards and mutator, writes exactly where a claim may. */
  lemma ClaimDecision(stored: Option<Session>, target: string, attemptId: string, observedAt: Time, staleAfter: Time,
      now: Time)
    ensures Decide(ClaimPatch(target, attemptId, observedAt, staleAfter), stored, now) ==
            ClaimDecided(stored, target, attemptId, observedAt, staleAfter, now)
  {
  }

  /** The retry loop, given an outcome's guards and mutator, writes exactly where that attempt still holds the lease. */
  lemma PersistDecision(stored: Option<Session>, target: string, attemptId: string, result: Result, observedAt: Time,
      now: Time)
    ensures Decide(PersistPatch(target, attemptId, result, observedAt), stored, now) ==
            PersistDecided(stored, target, attemptId, result, observedAt)
  {
  }

  // ---- the same, read off the fields ----

  /** Running by its spec, not being deleted, and on this binding. */
  predicate RunsOn(session: Session, target: string) {
    var field := Json.Get(session.spec, "desiredState");
    && session.status.binding.id == target
    && !session.terminating
    && (field.Text? ==> field.s == "" || field.s == "Running")
  }

  /** No VM, and no claim in progress but one that was observed at least this long ago. */
  predicate OpenToClaims(binding: Binding, staleAfter: Time, now: Time) {
    && binding.vmRef == None
    && (binding.vmAssignment.Some? && binding.vmAssignment.value.state == "in_progress" ==>
          && binding.vmAssignment.value.observedAt.Some?
          && now >= binding.vmAssignment.value.observedAt.value + staleAfter)
  }

  /** The claim in progress is this attempt's. */
  predicate ClaimedBy(binding: Binding, attemptId: string) {
    match binding.vmAssignment
    case None => false
    case Some(assignment) => assignment.state == "in_progress" && assignment.attemptId == attemptId
  }

  /** `after` is `before` with this outcome: the VM and what belongs to it for "assigned", a note on any other. */
  predicate ShowsOutcome(before: Binding, after: Binding, attemptId: string, result: Result, observedAt: Time) {
    // what no outcome touches
    && after.id == before.id && after.jobRef == before.jobRef && after.podRef == before.podRef
    && after.createdAt == before.createdAt && after.containerReadyAt == before.containerReadyAt
    && after.containerBootstrapStartedAt == before.containerBootstrapStartedAt
    && after.releaseGeneration == before.releaseGeneration
    && if result.state == "assigned" then
         && after.vmRef == result.vmRef && after.desktopSecret == result.desktopSecret && after.desktopUrl == ""
         && after.vmAssignment == None
         && after.vmAssignedAt == after.guestHandshakeStartedAt == Some(observedAt)
         && after.vmReadyObservedAt == None && after.vmReadyHostname == after.vmReadyMessageId == ""
         && after.releaseRequestedAt == after.releaseCompletedAt == None
       else
         && after.vmAssignment == Some(VmAssignment(result.state, attemptId, Some(observedAt), result.message))
         && after.vmRef == before.vmRef && after.desktopSecret == before.desktopSecret
         && after.desktopUrl == before.desktopUrl
         && after.vmAssignedAt == before.vmAssignedAt
         && after.guestHandshakeStartedAt == before.guestHandshakeStartedAt
         && after.vmReadyObservedAt == before.vmReadyObservedAt && after.vmReadyHostname == before.vmReadyHostname
         && after.vmReadyMessageId == before.vmReadyMessageId
         && after.releaseRequestedAt == before.releaseRequestedAt
         && after.releaseCompletedAt == before.releaseCompletedAt
  }

  /** The guards and the lease, in these terms. */
  lemma GuardsByField(session: Session, target: string, attemptId: string, staleAfter: Time, now: Time)
    ensures Live(session, target) <==> RunsOn(session, target)
    ensures Claimable(session.status.binding, staleAfter, now) <==>
            OpenToClaims(session.status.binding, staleAfter, now)
    ensures HeldBy(session.status.binding, attemptId) <==> ClaimedBy(session.status.binding, attemptId)
  {
    DesiredStateMeans(session);
  }

  /** What the attempt that holds the lease writes. */
  lemma OutcomeByField(binding: Binding, attemptId: string, result: Result, observedAt: Time)
    requires HeldBy(binding, attemptId) && (result.state == "assigned" ==> HasVm(result))
    ensures ShowsOutcome(binding, PersistedBinding(binding, attemptId, result, observedAt), attemptId, result,
            observedAt)
  {
  }
}
