/** `claim_binding_vm_assignment_attempt` and `persist_binding_vm_assignment_result` against a live API server. */
module VmAssignmentCalls {
  import opened Prelude
  import opened Sessions
  import opened StatusPatch
  import opened ApiServer
  import opened StatusWriter
  import opened VmAssignment

  /** `error` is the exception as a report of it names it. */
  datatype Answer<T> = Answered(value: T) | Raised(error: string)

  /**
   * The id comes back exactly when this call's own write landed; the version it replaced ran on the target
   * and was open to claims, and what it became differs in the assignment only. None comes back only over a
   * version that was not. The call raises only where a request failed, or three other writers came in between.
   */
  method Claim(api: Server, target: string, attemptId: string, staleAfter: Time)
    returns (answer: Answer<Option<string>>, ghost effect: Effect, ghost observedAt: Time)
    requires api.Valid() && attemptId in api.reserved
    modifies api
    ensures api.Valid() && old(api.states) <= api.states && old(api.clock) <= observedAt <= effect.now <= api.clock
    ensures answer.Answered? ==> answer.value == if effect.Landed? then Some(attemptId) else None
    ensures |old(api.states)| - 1 <= effect.at < |api.states|
    ensures effect.Missed? ==> api.own == old(api.own)
    ensures effect.Landed? ==>
              && effect.at + 1 < |api.states| && api.own == old(api.own) + {effect.at}
              && api.states[effect.at].Some? && api.states[effect.at + 1].Some?
              && var before, after := api.states[effect.at].value, api.states[effect.at + 1].value;
              && RunsOn(before, target) && OpenToClaims(before.status.binding, staleAfter, effect.now)
              && after.status.binding.vmAssignment == Some(VmAssignment("in_progress", attemptId, Some(observedAt), ""))
              && before.status == after.status.(
                   binding := after.status.binding.(vmAssignment := before.status.binding.vmAssignment))
              && after.spec == before.spec && after.terminating == before.terminating
    ensures effect.Missed? && answer.Answered? ==>
              var looked := OrEmpty(api.states[effect.at]);
              !(RunsOn(looked, target) && OpenToClaims(looked.status.binding, staleAfter, effect.now))
    ensures answer.Raised? ==> api.failures > old(api.failures) || |api.states| >= |old(api.states)| + 3
  {
    observedAt := api.clock;
    var patch := ClaimPatch(target, attemptId, api.clock, staleAfter);
    var outcome;
    outcome, effect := PatchStatus(api, patch);
    ClaimDecision(api.states[effect.at], target, attemptId, observedAt, staleAfter, effect.now);
    GuardsByField(OrEmpty(api.states[effect.at]), target, attemptId, staleAfter, effect.now);
    if outcome.Returned? {
      ClaimAnswerOfSnapshot(api, effect, outcome.session, target, attemptId);
      answer := Answered(ClaimAnswer(outcome.session, target, attemptId));
    } else {
      var error: string := *;
      answer := Raised(error);
    }
  }

  /** No version this client merely read can carry an id it has not written. */
  lemma ClaimAnswerOfSnapshot(api: Server, effect: Effect, session: Option<Session>, target: string, attemptId: string)
    requires api.Valid()
    requires effect.Missed? ==>
               effect.at < |api.states| && session == api.states[effect.at] && attemptId in api.reserved
    ensures effect.Missed? ==> ClaimAnswer(session, target, attemptId) == None
  {
  }

  /** One persist call as it went: what it was to store, what it did to the object, what it told its caller. */
  datatype Call = Call(result: Result, observedAt: Time, effect: Effect, answer: Answer<bool>)

  /**
   * An outcome lands on a live version whose lease is still this attempt's, as one exact write, and then the
   * answer is true. Without a write the answer is read off a version that called for none.
   */
  ghost predicate Went(states: seq<Option<Session>>, start: nat, call: Call, target: string, attemptId: string) {
    && start <= call.effect.at < |states|
    && (call.effect.Landed? ==>
          && call.effect.at + 1 < |states| && states[call.effect.at].Some? && states[call.effect.at + 1].Some?
          && var before, after := states[call.effect.at].value, states[call.effect.at + 1].value;
          && RunsOn(before, target) && ClaimedBy(before.status.binding, attemptId)
          && (call.result.state == "assigned" ==> call.result.vmRef.Some? && call.result.vmRef.value.name != "")
          && ShowsOutcome(before.status.binding, after.status.binding, attemptId, call.result, call.observedAt)
          && before.status == after.status.(binding := before.status.binding)
          && after.spec == before.spec && after.terminating == before.terminating
          && (call.answer.Answered? ==> call.answer.value))
    && (call.effect.Missed? && call.answer.Answered? ==>
          var looked := OrEmpty(states[call.effect.at]); var binding := looked.status.binding;
          && (call.result.state != "in_progress" ==> !(RunsOn(looked, target) && ClaimedBy(binding, attemptId)))
          && (call.answer.value <==>
                && binding.id == target
                && if call.result.state == "assigned" then
                     binding.vmRef.Some? && binding.vmRef.value.name != "" && binding.vmAssignment == None
                   else
                     && binding.vmAssignment.Some? && binding.vmAssignment.value.attemptId == attemptId
                     && binding.vmAssignment.value.state == call.result.state))
  }

  /** The call raises only where the outcome names no VM, a request failed, or three other writers came in between. */
  method Persist(api: Server, target: string, attemptId: string, result: Result)
    returns (answer: Answer<bool>, ghost call: Call)
    requires api.Valid()
    modifies api
    ensures api.Valid() && old(api.states) <= api.states && old(api.failures) <= api.failures
    ensures call.result == result && call.answer == answer && old(api.clock) <= call.observedAt <= api.clock
    ensures Went(api.states, |old(api.states)| - 1, call, target, attemptId)
    ensures api.own == if call.effect.Landed? then old(api.own) + {call.effect.at} else old(api.own)
    ensures answer.Raised? ==>
              || (result.state == ASSIGNED && !HasVm(result))
              || api.failures > old(api.failures) || |api.states| >= |old(api.states)| + 3
  {
    ghost var observedAt := api.clock;
    var patch := PersistPatch(target, attemptId, result, api.clock);
    var outcome;
    ghost var effect;
    outcome, effect := PatchStatus(api, patch);
    PersistDecision(api.states[effect.at], target, attemptId, result, observedAt, effect.now);
    GuardsByField(OrEmpty(api.states[effect.at]), target, attemptId, 0.0, effect.now);
    if PersistDecided(api.states[effect.at], target, attemptId, result, observedAt).Write? {
      OutcomeByField(OrEmpty(api.states[effect.at]).status.binding, attemptId, result, observedAt);
    }
    if outcome.Returned? {
      answer := Answered(PersistAnswer(outcome.session, target, attemptId, result.state));
    } else {
      var error: string := *;
      answer := Raised(error);
    }
    call := Call(result, observedAt, effect, answer);
  }

  /** What a call left behind stays as it is, whatever is written later. */
  lemma WentStays(states: seq<Option<Session>>, states': seq<Option<Session>>, start: nat, start': nat, call: Call,
      target: string, attemptId: string)
    requires Went(states, start, call, target, attemptId) && states <= states' && start' <= start
    ensures Went(states', start', call, target, attemptId)
  {
  }

  /**
   * What the answer to "assigned" means. True: the binding had this VM, stored by this call out of its own
   * lease, or it had some VM before this call looked. False: it had none, and the lease was no longer this attempt's.
   */
  lemma AnswerMeans(states: seq<Option<Session>>, start: nat, call: Call, target: string, attemptId: string)
    requires Went(states, start, call, target, attemptId) && call.answer.Answered? && call.result.state == ASSIGNED
    requires HasVm(call.result)
    ensures var looked := OrEmpty(states[call.effect.at]).status.binding;
            if call.effect.Landed? then
              call.answer.value && OrEmpty(states[call.effect.at + 1]).status.binding.vmRef == call.result.vmRef
            else if call.answer.value then looked.id == target && looked.vmRef.Some? && looked.vmRef.value.name != ""
                && looked.vmAssignment.None?
            else !(Live(OrEmpty(states[call.effect.at]), target) && HeldBy(looked, attemptId))
  {
  }
}
