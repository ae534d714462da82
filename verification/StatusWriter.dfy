/** `patch_assistant_session_status`: the bounded read / compute / compare-and-swap loop. */
module StatusWriter {
  import opened Prelude
  import opened Sessions
  import opened StatusPatch
  import opened ApiServer

  const MAX_CAS_RETRIES: nat := 3

  datatype Outcome =
    | Returned(session: Option<Session>)
    | MutatorRaised
    | ConflictRaised
    | RequestRaised

  /**
   * Where a finished call took effect. `Landed(at, now)`: its one write took the object from
   * `states[at]`, the mutators having read the clock at `now`. `Missed(at, now)`: it wrote nothing,
   * and `states[at]` is the version it last looked at.
   */
  datatype Effect = Landed(at: nat, now: Time) | Missed(at: nat, now: Time)

  /** The version `states[at]` was replaced by exactly what one atomic pass decides for it. */
  ghost predicate AtomicAt(patch: Patch, states: seq<Option<Session>>, at: nat, now: Time) {
    && at + 1 < |states|
    && states[at].Some? && states[at + 1].Some?
    && Decide(patch, states[at], now) == Write(states[at + 1].value.status)
    && states[at + 1].value == states[at].value.(status := states[at + 1].value.status,
        resourceVersion := states[at + 1].value.resourceVersion)
  }

  /** A replace that matched the version read has replaced the very state that was read. */
  lemma LandedAtomically(patch: Patch, states: seq<Option<Session>>, revision: nat, at: nat, now: Time)
    requires VersionsGrow(states, revision)
    requires at + 1 < |states| && states[at].Some? && states[|states| - 2].Some? && states[|states| - 1].Some?
    requires states[at].value.resourceVersion == states[|states| - 2].value.resourceVersion
    requires Decide(patch, states[at], now) == Write(states[|states| - 1].value.status)
    requires states[|states| - 1].value ==
             states[|states| - 2].value.(status := states[|states| - 1].value.status,
                 resourceVersion := states[|states| - 1].value.resourceVersion)
    ensures at == |states| - 2 && AtomicAt(patch, states, at, now)
  {
  }

  /** The plain fields of the next status, as a value. */
  ghost function Plain(patch: Patch, status: Status): Status {
    status.(
    phase := if patch.phase.Some? then patch.phase.value else status.phase,
    observedActivationId := if patch.observedActivationId.Some? then patch.observedActivationId.value
        else status.observedActivationId,
    lastError := Apply(patch.lastError, status.lastError),
    conditions := Apply(patch.conditions, status.conditions),
    bootstrapRetries := Apply(patch.bootstrapRetries, status.bootstrapRetries),
    vmRetries := Apply(patch.vmRetries, status.vmRetries),
    desktopProbeFailures := Apply(patch.desktopProbeFailures, status.desktopProbeFailures),
    suspendIntent := Apply(patch.suspendIntent, status.suspendIntent),
    signals := Apply(patch.signals, status.signals))
  }

  /** The fields of `next_status` that no mutator computes, one after the other. */
  method PlainFields(patch: Patch, status: Status) returns (next: Status)
    ensures next == Plain(patch, status)
  {
    next := status;
    if patch.phase.Some? {
      next := next.(phase := patch.phase.value);
    }
    if patch.observedActivationId.Some? {
      next := next.(observedActivationId := patch.observedActivationId.value);
    }
    if patch.lastError.Set? {
      next := next.(lastError := patch.lastError.value);
    }
    if patch.conditions.Set? {
      next := next.(conditions := patch.conditions.value);
    }
    if patch.bootstrapRetries.Set? {
      next := next.(bootstrapRetries := patch.bootstrapRetries.value);
    }
    if patch.vmRetries.Set? {
      next := next.(vmRetries := patch.vmRetries.value);
    }
    if patch.desktopProbeFailures.Set? {
      next := next.(desktopProbeFailures := patch.desktopProbeFailures.value);
    }
    if patch.suspendIntent.Set? {
      next := next.(suspendIntent := patch.suspendIntent.value);
    }
    if patch.signals.Set? {
      next := next.(signals := patch.signals.value);
    }
  }

  /** The end of the pass: the ledger, and the signals that a rebinding clears. */
  method FinishStatus(patch: Patch, current: Session, begun: Status) returns (decision: Decision)
    requires begun == Plain(patch, current.status).(binding := begun.binding)
    ensures decision == DecideWith(patch, current, begun.binding)
  {
    var next := begun;
    if patch.releasedBindingsMutator.Some? {
      var mutation := patch.releasedBindingsMutator.value(current, current.status.releasedBindings);
      if mutation.Fault? {
        return Raise;
      }
      if mutation.Keep? {
        return ReturnCurrent;
      }
      next := next.(releasedBindings := mutation.value);
    } else if patch.releasedBindings.Set? {
      next := next.(releasedBindings := patch.releasedBindings.value);
    }
    var rebinds := patch.binding.Set? || patch.bindingMutator.Some?;
    if rebinds && current.status.binding.id != next.binding.id && patch.signals.Unset? {
      next := next.(signals := map[]);
    }
    if current.status == next {
      return ReturnCurrent;
    }
    return Write(next);
  }

  /** One pass of the loop body: the guards, then the fields of `next_status` one after the other. */
  method NextStatus(patch: Patch, stored: Option<Session>, now: Time) returns (decision: Decision)
    ensures decision == Decide(patch, stored, now)
  {
    var current := OrEmpty(stored);
    var next := current.status;
    if patch.expectedBindingId.Set? && current.status.binding.id != patch.expectedBindingId.value {
      return ReturnCurrent;
    }
    if patch.requireDesiredState.Set? && DesiredState(current) != patch.requireDesiredState.value {
      return ReturnCurrent;
    }
    next := PlainFields(patch, next);
    if patch.bindingMutator.Some? {
      var mutation := patch.bindingMutator.value(current, current.status.binding, now);
      if mutation.Fault? {
        return Raise;
      }
      if mutation.Keep? {
        return ReturnCurrent;
      }
      next := next.(binding := mutation.value);
    } else if patch.binding.Set? {
      next := next.(binding := patch.binding.value);
    }
    decision := FinishStatus(patch, current, next);
  }

  /** What a finished call, or a finished attempt, left behind and told its caller. */
  twostate predicate Accounted(api: Server, patch: Patch, outcome: Outcome, effect: Effect)
    reads api
  {
    && api.Valid() && old(api.states) <= api.states
    && |old(api.states)| - 1 <= effect.at < |api.states| && old(api.clock) <= effect.now <= api.clock
    && api.failures == old(api.failures) + (if outcome.RequestRaised? then 1 else 0)
       // one write at most, and that write is one atomic pass over the version it replaced
    && (effect.Landed? ==>
          && api.own == old(api.own) + {effect.at}
          && AtomicAt(patch, api.states, effect.at, effect.now)
          && api.reserved == old(api.reserved) - {AttemptOn(api.states[effect.at + 1])}
          && (outcome == Returned(api.states[effect.at + 1]) || outcome.RequestRaised?))
       // otherwise nothing was written
    && (effect.Missed? ==>
          && api.own == old(api.own) && api.reserved == old(api.reserved)
          && (outcome.Returned? ==>
                outcome.session == api.states[effect.at]
                    && Decide(patch, api.states[effect.at], effect.now).ReturnCurrent?)
          && (outcome.MutatorRaised? ==> Decide(patch, api.states[effect.at], effect.now).Raise?))
  }

  /** One turn of the loop. ConflictRaised says that somebody else's write landed between read and replace. */
  method AttemptOnce(api: Server, patch: Patch) returns (outcome: Outcome, ghost effect: Effect)
    requires api.Valid()
    modifies api
    ensures Accounted(api, patch, outcome, effect)
    ensures outcome.ConflictRaised? ==> effect.Missed? && |api.states| > |old(api.states)|
    ensures api.requests == old(api.requests)
            + if effect.Landed? || outcome.ConflictRaised? || outcome.RequestRaised? then 1 else 0
  {
    var stored := api.Get();
    ghost var at := |api.states| - 1;
    var now := api.clock;
    effect := Missed(at, now);
    var decision := NextStatus(patch, stored, now);
    if decision.Raise? {
      return MutatorRaised, effect;
    }
    if decision.ReturnCurrent? {
      return Returned(stored), effect;
    }
    var reply := api.ReplaceStatus(decision.status, if stored.Some? then Some(stored.value.resourceVersion) else None);
    if api.own != old(api.own) {
      LandedAtomically(patch, api.states, api.revision, at, now);
      effect := Landed(at, now);
    }
    outcome := match reply
      case Ok(session) => Returned(Some(session))
      case Conflict => ConflictRaised
      case Failed => RequestRaised;
  }

  method PatchStatus(api: Server, patch: Patch) returns (outcome: Outcome, ghost effect: Effect)
    requires api.Valid()
    modifies api
    ensures Accounted(api, patch, outcome, effect)
    ensures outcome.ConflictRaised? ==> effect.Missed? && |api.states| >= |old(api.states)| + 3
    ensures outcome.ConflictRaised? ==> api.requests == old(api.requests) + 3
    ensures api.requests <= old(api.requests) + 3
  {
    var attempt: nat := 0;
    while true
      invariant attempt < MAX_CAS_RETRIES
      invariant api.Valid() && old(api.states) <= api.states && old(api.clock) <= api.clock
      invariant api.own == old(api.own) && api.reserved == old(api.reserved) && api.failures == old(api.failures)
      invariant |api.states| >= |old(api.states)| + attempt && api.requests == old(api.requests) + attempt
      decreases MAX_CAS_RETRIES - attempt
    {
      outcome, effect := AttemptOnce(api, patch);
      attempt := attempt + 1;
      if !outcome.ConflictRaised? || attempt >= MAX_CAS_RETRIES {
        return;
      }
    }
  }
}
