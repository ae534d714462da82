/** What one pass of `patch_assistant_session_status` decides, as a function of the version it read. */
module StatusPatch {
  import opened Prelude
  import opened Sessions
  import Json

  /** A keyword argument that may be left at `_STATUS_UNSET`. */
  datatype Arg<+T> = Unset | Set(value: T)

  /** What a mutator passed to the retry loop may answer. */
  datatype Mutation<+T> = Keep | Next(value: T) | Fault

  type BindingMutator = (Session, Binding, Time) -> Mutation<Binding>
  type LedgerMutator = (Session, seq<ReleasedBinding>) -> Mutation<seq<ReleasedBinding>>

  datatype Patch = Patch(
    phase: Option<string>,
    observedActivationId: Option<string>,
    binding: Arg<Binding>,
    lastError: Arg<string>,
    conditions: Arg<seq<Condition>>,
    bootstrapRetries: Arg<int>,
    vmRetries: Arg<int>,
    desktopProbeFailures: Arg<int>,
    suspendIntent: Arg<Option<SuspendIntent>>,
    signals: Arg<map<string, Signal>>,
    releasedBindings: Arg<seq<ReleasedBinding>>,
    expectedBindingId: Arg<string>,
    requireDesiredState: Arg<string>,
    bindingMutator: Option<BindingMutator>,
    releasedBindingsMutator: Option<LedgerMutator>)

  /** A call that names no field. */
  const NOTHING := Patch(None, None, Unset, Unset, Unset, Unset, Unset, Unset, Unset, Unset, Unset, Unset, Unset, None,
      None)

  datatype Decision = ReturnCurrent | Raise | Write(status: Status)

  function Apply<T>(arg: Arg<T>, current: T): T {
    if arg.Set? then arg.value else current
  }

  /** Both guards of the loop hold of the version read. */
  predicate Guarded(patch: Patch, current: Session) {
    && (patch.expectedBindingId.Set? ==> current.status.binding.id == patch.expectedBindingId.value)
    && (patch.requireDesiredState.Set? ==> DesiredState(current) == patch.requireDesiredState.value)
  }

  /** The next binding: from the mutator when there is one, otherwise from the argument. */
  function NextBinding(patch: Patch, current: Session, now: Time): Mutation<Binding> {
    if patch.bindingMutator.Some? then patch.bindingMutator.value(current, current.status.binding, now)
    else Next(Apply(patch.binding, current.status.binding))
  }

  function NextLedger(patch: Patch, current: Session): Mutation<seq<ReleasedBinding>> {
    if patch.releasedBindingsMutator.Some?
        then patch.releasedBindingsMutator.value(current, current.status.releasedBindings)
    else Next(Apply(patch.releasedBindings, current.status.releasedBindings))
  }

  /** Signals survive unless the call changes the binding id without saying what the signals become. */
  function NextSignals(patch: Patch, current: Session, nextId: string): map<string, Signal> {
    if patch.signals.Set? then patch.signals.value
    else if (patch.binding.Set? || patch.bindingMutator.Some?) && nextId != current.status.binding.id then map[]
    else current.status.signals
  }

  /** The full next status, once the next binding and the next ledger are known. */
  function Assemble(patch: Patch, current: Session, binding: Binding, ledger: seq<ReleasedBinding>): Status {
    Status(
      if patch.phase.Some? then patch.phase.value else current.status.phase,
      if patch.observedActivationId.Some? then patch.observedActivationId.value
          else current.status.observedActivationId,
      binding,
      Apply(patch.lastError, current.status.lastError),
      Apply(patch.conditions, current.status.conditions),
      Apply(patch.bootstrapRetries, current.status.bootstrapRetries),
      Apply(patch.vmRetries, current.status.vmRetries),
      Apply(patch.desktopProbeFailures, current.status.desktopProbeFailures),
      Apply(patch.suspendIntent, current.status.suspendIntent),
      NextSignals(patch, current, binding.id),
      ledger)
  }

  /** The rest of the pass, once the next binding is known. */
  function DecideWith(patch: Patch, current: Session, binding: Binding): Decision {
    match NextLedger(patch, current)
    case Keep => ReturnCurrent
    case Fault => Raise
    case Next(ledger) =>
      var next := Assemble(patch, current, binding, ledger);
      if next == current.status then ReturnCurrent else Write(next)
  }

  /** One pass over the version read: `stored` is None where the object is missing. */
  function Decide(patch: Patch, stored: Option<Session>, now: Time): Decision {
    var current := OrEmpty(stored);
    if !Guarded(patch, current) then ReturnCurrent else
    match NextBinding(patch, current, now)
    case Keep => ReturnCurrent
    case Fault => Raise
    case Next(binding) => DecideWith(patch, current, binding)
  }

  /** What a write makes of each plain field: the argument where one is given, the stored value otherwise. */
  lemma WrittenFields(patch: Patch, stored: Option<Session>, now: Time)
    requires Decide(patch, stored, now).Write?
    ensures var before, after := OrEmpty(stored).status, Decide(patch, stored, now).status;
            && after.phase == (if patch.phase.Some? then patch.phase.value else before.phase)
            && (patch.observedActivationId.Some? ==> after.observedActivationId == patch.observedActivationId.value)
            && (patch.observedActivationId.None? ==> after.observedActivationId == before.observedActivationId)
            && after.lastError == (if patch.lastError.Set? then patch.lastError.value else before.lastError)
            && after.conditions == (if patch.conditions.Set? then patch.conditions.value else before.conditions)
            && (patch.bootstrapRetries.Set? ==> after.bootstrapRetries == patch.bootstrapRetries.value)
            && (patch.bootstrapRetries.Unset? ==> after.bootstrapRetries == before.bootstrapRetries)
            && after.vmRetries == (if patch.vmRetries.Set? then patch.vmRetries.value else before.vmRetries)
            && (patch.desktopProbeFailures.Set? ==> after.desktopProbeFailures == patch.desktopProbeFailures.value)
            && (patch.desktopProbeFailures.Unset? ==> after.desktopProbeFailures == before.desktopProbeFailures)
            && (patch.suspendIntent.Set? ==> after.suspendIntent == patch.suspendIntent.value)
            && (patch.suspendIntent.Unset? ==> after.suspendIntent == before.suspendIntent)
  {
  }

  /** A guard that is given and does not hold of the version read lets nothing through. */
  lemma GuardsStop(patch: Patch, stored: Option<Session>, now: Time)
    requires var session := OrEmpty(stored); var field := Json.Get(session.spec, "desiredState");
             || (patch.expectedBindingId.Set? && session.status.binding.id != patch.expectedBindingId.value)
             || (patch.requireDesiredState == Set("Running")
                 && (session.terminating || (field.Text? && field.s != "" && field.s != "Running")))
    ensures Decide(patch, stored, now).ReturnCurrent?
  {
    DesiredStateMeans(OrEmpty(stored));
  }

  /** Guards that hold of it make no difference. */
  lemma GuardsPass(patch: Patch, stored: Option<Session>, now: Time)
    requires var session := OrEmpty(stored); var field := Json.Get(session.spec, "desiredState");
             && (patch.expectedBindingId.Set? ==> session.status.binding.id == patch.expectedBindingId.value)
             && (patch.requireDesiredState.Set? ==>
                   && patch.requireDesiredState.value == "Running"
                   && !session.terminating && (field.Text? ==> field.s == "" || field.s == "Running"))
    ensures var unguarded := patch.(expectedBindingId := Unset, requireDesiredState := Unset);
            Decide(patch, stored, now) == Decide(unguarded, stored, now)
  {
    DesiredStateMeans(OrEmpty(stored));
  }
}
