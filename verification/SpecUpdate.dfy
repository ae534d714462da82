/** `create_or_update_assistant_session`: a spec merged into a live object until the object matches it. */
module SpecUpdate {
  import opened Prelude
  import opened Sessions
  import opened ApiServer
  import opened StatusWriter
  import Json

  type Spec = map<string, Json.Value>

  /** Compared field by field; `requestedAt` never decides. */
  const IGNORED_FIELDS: set<string> := {"requestedAt"}

  predicate FieldsMatch(current: Spec, spec: Spec) {
    forall key :: key in spec.Keys - IGNORED_FIELDS ==> Json.Get(current, key) == Json.Get(spec, key)
  }

  /** `_assistant_session_spec_matches`: a missing object has an empty spec. */
  predicate SpecMatches(stored: Option<Session>, spec: Spec) {
    FieldsMatch(OrEmpty(stored).spec, spec)
  }

  predicate IsTerminating(stored: Option<Session>) {
    stored.Some? && stored.value.terminating
  }

  // ---- when a merge converges ----

  /** The patch has no null, and no object in the target has a member the patch lacks. */
  ghost predicate Absorbs(target: Json.Value, patch: Json.Value)
    decreases patch
  {
    patch.Object? ==>
      && (target.Object? ==> target.fields.Keys <= patch.fields.Keys)
      && forall key :: key in patch.fields ==>
           !patch.fields[key].Null? && Absorbs(if target.Object? then Json.Get(target.fields, key) else Json.Null,
               patch.fields[key])
  }

  /** Merging gives back the patch exactly where the target has nothing the patch does not overwrite. */
  lemma {:induction false} MergeGivesPatch(target: Json.Value, patch: Json.Value)
    ensures Json.Merge(target, patch) == patch <==> Absorbs(target, patch)
    decreases patch
  {
    if patch.Object? {
      var base := if target.Object? then target.fields else map[];
      var merged := Json.Merge(target, patch).fields;
      forall key | key in patch.fields && !patch.fields[key].Null?
        ensures key in merged && (merged[key] == patch.fields[key] <==> Absorbs(Json.Get(base, key), patch.fields[key]))
      {
        MergeGivesPatch(Json.Get(base, key), patch.fields[key]);
      }
      if Absorbs(target, patch) {
        assert merged.Keys == patch.fields.Keys;
        assert merged == patch.fields;
      }
      if merged == patch.fields {
        assert forall key :: key in base.Keys && key !in patch.fields ==> key in merged;
        assert forall key :: key in patch.fields && patch.fields[key].Null? ==> key !in merged;
      }
    }
  }

  /** Every requested field absorbs what is stored under it. */
  ghost predicate AllAbsorb(current: Spec, spec: Spec) {
    forall key :: key in spec.Keys - IGNORED_FIELDS ==> Absorbs(Json.Get(current, key), spec[key])
  }

  /** One undisturbed patch makes the object match exactly if every requested field absorbs what is stored. */
  lemma PatchConvergesIff(current: Spec, spec: Spec)
    ensures FieldsMatch(Json.MergeFields(current, spec), spec) <==> AllAbsorb(current, spec)
  {
    forall key | key in spec
      ensures Json.Get(Json.MergeFields(current, spec), key) == Json.Get(spec, key) <==>
              Absorbs(Json.Get(current, key), spec[key])
    {
      MergeGivesPatch(Json.Get(current, key), spec[key]);
    }
  }

  /** What one patch left standing, the next leaves standing too: retrying does not help. */
  lemma {:induction false} RetryingDoesNotHelp(target: Json.Value, patch: Json.Value)
    ensures Absorbs(Json.Merge(target, patch), patch) <==> Absorbs(target, patch)
    decreases patch
  {
    if patch.Object? {
      var base := if target.Object? then target.fields else map[];
      var merged := Json.Merge(target, patch).fields;
      forall key | key in patch.fields && !patch.fields[key].Null?
        ensures Absorbs(Json.Get(merged, key), patch.fields[key]) <==> Absorbs(Json.Get(base, key), patch.fields[key])
      {
        RetryingDoesNotHelp(Json.Get(base, key), patch.fields[key]);
      }
      if Absorbs(Json.Merge(target, patch), patch) {
        assert forall key :: key in base.Keys && key !in patch.fields ==> key in merged;
      }
      if Absorbs(target, patch) {
        assert forall key :: key in merged ==> key in patch.fields;
      }
    }
  }

  /** The stored spec after the same patch has landed `n` times. */
  ghost function Merged(current: Spec, spec: Spec, n: nat): Spec {
    if n == 0 then current else Json.MergeFields(Merged(current, spec, n - 1), spec)
  }

  lemma {:induction false} MergingKeepsAbsorbing(current: Spec, spec: Spec, n: nat)
    ensures AllAbsorb(Merged(current, spec, n), spec) <==> AllAbsorb(current, spec)
  {
    if n > 0 {
      var before := Merged(current, spec, n - 1);
      MergingKeepsAbsorbing(current, spec, n - 1);
      forall key | key in spec.Keys - IGNORED_FIELDS
        ensures Absorbs(Json.Get(Json.MergeFields(before, spec), key), spec[key]) <==>
                Absorbs(Json.Get(before, key), spec[key])
      {
        RetryingDoesNotHelp(Json.Get(before, key), spec[key]);
      }
    }
  }

  /**
   * However often it is repeated, the patch makes the object match exactly if every requested field absorbed
   * what was stored.
   */
  lemma RepeatedPatchConvergesIff(current: Spec, spec: Spec, n: nat)
    requires n > 0
    ensures FieldsMatch(Merged(current, spec, n), spec) <==> AllAbsorb(current, spec)
  {
    MergingKeepsAbsorbing(current, spec, n - 1);
    PatchConvergesIff(Merged(current, spec, n - 1), spec);
  }

  /**
   * A stored placement that the requested desktop does not name is never got rid of, whatever else either spec
   * holds.
   */
  lemma OldPlacementIsStuck(current: Spec, spec: Spec, n: nat)
    requires "desktop" in current && current["desktop"].Object? && "placement" in current["desktop"].fields
    requires "desktop" in spec && spec["desktop"].Object? && "placement" !in spec["desktop"].fields
    ensures !FieldsMatch(Merged(current, spec, n), spec)
  {
    assert "desktop" in spec.Keys - IGNORED_FIELDS;
    if n > 0 {
      RepeatedPatchConvergesIff(current, spec, n);
      assert !Absorbs(Json.Get(current, "desktop"), spec["desktop"]);
    }
  }

  // ---- the call ----

  datatype SpecOutcome =
    | Done(session: Option<Session>)
    | TerminatingRaised
    | UpdateConflicted
    | UpdateFailed
    | NotConverged

  /** `existing` is one of the states the object has been in since the call began. */
  ghost predicate SeenAt(states: seq<Option<Session>>, since: nat, existing: Option<Session>, at: nat) {
    since <= at < |states| && states[at] == existing
  }

  /**
   * The write out of `states[i]` is this call's: a creation, or the spec merged into a version that is not
   * being deleted.
   */
  ghost predicate SpecWrite(states: seq<Option<Session>>, i: nat, spec: Spec) {
    && i + 1 < |states| && states[i + 1].Some? && !states[i + 1].value.terminating
    && (states[i].Some? ==> !states[i].value.terminating)
    && if states[i].None? then
         states[i + 1].value.spec == spec && states[i + 1].value.status == EMPTY_STATUS
       else
         states[i + 1].value.spec == Json.MergeFields(states[i].value.spec, spec)
             && states[i + 1].value.status == states[i].value.status
  }

  /** All this call has written so far. */
  ghost predicate SpecWrites(states: seq<Option<Session>>, before: set<nat>, own: set<nat>, spec: Spec) {
    before <= own && forall i :: i in own - before ==> SpecWrite(states, i, spec)
  }

  /** Somebody else wrote after the object was in `states[since]`. */
  ghost predicate Disturbed(states: seq<Option<Session>>, own: set<nat>, since: nat) {
    exists i :: since <= i && i + 1 < |states| && i !in own
  }

  /** What one turn of the loop leaves: an outcome, or the version to go on with. */
  datatype Turn = Turn(outcome: Option<SpecOutcome>, existing: Option<Session>, conflict: bool)

  /** What is stored has the requested value, or lacks it too, under every key but "requestedAt". */
  predicate Agrees(existing: Option<Session>, spec: Spec) {
    var fields := OrEmpty(existing).spec;
    forall key :: key in spec && key != "requestedAt" ==>
      if key in fields then fields[key] == spec[key] else spec[key] == Json.Null
  }

  /**
   * The outcome is about the version `existing`; a conflict was caused by a foreign write, which took the object
   * away, or created another, or was one of several; and a failure by a failed request.
   */
  ghost predicate Justified(outcome: SpecOutcome, existing: Option<Session>, spec: Spec, disturbed: bool,
      missing: bool, requests: nat, failures: nat)
  {
    && (outcome.UpdateFailed? <==> failures > 0)
    && match outcome
       case Done(session) =>
         session == existing && Agrees(existing, spec) && (existing.Some? ==> !existing.value.terminating)
       case TerminatingRaised => existing.Some? && existing.value.terminating
       case NotConverged => !Agrees(existing, spec) && requests == 3
       case UpdateConflicted =>
         && disturbed && (existing.Some? ==> !existing.value.terminating && !Agrees(existing, spec))
         && (existing.None? || missing || requests == 3)
       case UpdateFailed => true
  }

  lemma AgreesMeans(existing: Option<Session>, spec: Spec)
    ensures Agrees(existing, spec) <==> SpecMatches(existing, spec)
  {
    var fields := OrEmpty(existing).spec;
    if Agrees(existing, spec) {
      assert forall key :: key in spec.Keys - IGNORED_FIELDS ==> key in spec && key != "requestedAt";
    }
    if SpecMatches(existing, spec) {
      forall key | key in spec && key != "requestedAt" ensures Json.Get(fields, key) == Json.Get(spec, key) {
        assert key in spec.Keys - IGNORED_FIELDS;
      }
    }
  }

  /** The object was missing at some time from `since` on. */
  ghost predicate WasMissing(states: seq<Option<Session>>, since: nat) {
    exists i :: since <= i < |states| && states[i].None?
  }

  lemma WasMissingStays(states: seq<Option<Session>>, since: nat, i: nat)
    requires since <= i < |states|
    ensures states[i].None? ==> WasMissing(states, since)
  {
  }

  /** A turn from the version `read`, the latest: what it wrote, the version it ends on, and why it conflicted. */
  twostate predicate TurnKept(api: Server, spec: Spec, turn: Turn)
    reads api
  {
    && api.Valid() && |old(api.states)| > 0 && old(api.states) <= api.states
    && api.states[|api.states| - 1] == turn.existing
    && SpecWrites(api.states, old(api.own), api.own, spec)
        && (forall i :: i in api.own ==> i in old(api.own) || |old(api.states)| - 1 <= i)
    && (turn.conflict ==> Disturbed(api.states, api.own, |old(api.states)| - 1))
    && api.requests == old(api.requests) + 1 && api.failures >= old(api.failures)
    && (turn.outcome.None? ==> api.failures == old(api.failures))
    && (turn.outcome.Some? ==>
          && !turn.outcome.value.NotConverged?
          && Justified(turn.outcome.value, turn.existing, spec, turn.conflict, old(api.stored).None?, 1,
                       api.failures - old(api.failures)))
  }

  /** The object is missing: create it. */
  method CreateTurn(api: Server, spec: Spec) returns (turn: Turn)
    requires api.Valid() && api.stored.None?
    modifies api
    ensures TurnKept(api, spec, turn)
    ensures turn.outcome.None? ==> turn.conflict && turn.existing.None?
    ensures !turn.conflict ==> turn.outcome.Some? && (turn.outcome.value.Done? || turn.outcome.value.UpdateFailed?)
  {
    var reply := api.Create(spec);
    if reply.Conflict? {
      ForeignAt(api.states, api.own, |old(api.states)| - 1);
      turn := AfterCreateConflict(api, spec);
      return;
    }
    if reply.Failed? {
      return Turn(Some(UpdateFailed), api.stored, false);
    }
    AgreesMeans(Some(reply.value), spec);
    return Turn(Some(Done(Some(reply.value))), Some(reply.value), false);
  }

  /** Somebody else created it: that one will do if it matches. */
  method AfterCreateConflict(api: Server, spec: Spec) returns (turn: Turn)
    requires api.Valid()
    modifies api
    ensures api.Interfered() && turn.conflict && turn.existing == api.stored
    ensures api.failures == old(api.failures) && api.requests == old(api.requests)
    ensures turn.outcome ==
            if turn.existing.None? then None
            else if turn.existing.value.terminating then Some(TerminatingRaised)
            else if Agrees(turn.existing, spec) then Some(Done(turn.existing)) else Some(UpdateConflicted)
  {
    var existing := api.Get();
    AgreesMeans(existing, spec);
    if existing.None? {
      return Turn(None, existing, true);
    }
    if IsTerminating(existing) {
      return Turn(Some(TerminatingRaised), existing, true);
    }
    if SpecMatches(existing, spec) {
      return Turn(Some(Done(existing)), existing, true);
    }
    return Turn(Some(UpdateConflicted), existing, true);
  }

  lemma ForeignAt(states: seq<Option<Session>>, own: set<nat>, i: nat)
    requires i + 1 < |states| && i !in own
    ensures Disturbed(states, own, i)
  {
  }

  /** The object is there and is not being deleted: merge the spec into the version read. */
  method PatchTurn(api: Server, spec: Spec, existing: Session) returns (turn: Turn)
    requires api.Valid() && api.stored == Some(existing) && !existing.terminating
    modifies api
    ensures TurnKept(api, spec, turn)
    ensures turn.outcome.None? ==> turn.existing.Some? && !IsTerminating(turn.existing)
    ensures !turn.conflict && turn.outcome != Some(UpdateFailed) ==>
              && turn.existing.Some? && !turn.existing.value.terminating
                  && turn.existing.value.spec == Json.MergeFields(existing.spec, spec)
              && turn.outcome == if SpecMatches(turn.existing, spec) then Some(Done(turn.existing)) else None
  {
    var reply := api.PatchSpec(spec, existing.resourceVersion);
    if reply.Conflict? {
      ForeignAt(api.states, api.own, |old(api.states)| - 1);
      turn := AfterConflict(api);
      return;
    }
    if api.own != old(api.own) {
      ReadIsReplaced(api.states, api.revision, |old(api.states)| - 1, |api.states| - 2);
      assert SpecWrite(api.states, |api.states| - 2, spec);
    }
    if reply.Failed? {
      return Turn(Some(UpdateFailed), api.stored, false);
    }
    AgreesMeans(Some(reply.value), spec);
    return Turn(if SpecMatches(Some(reply.value), spec) then Some(Done(Some(reply.value))) else None, Some(reply.value),
        false);
  }

  /** A patch met a newer version: look at the object again. */
  method AfterConflict(api: Server) returns (turn: Turn)
    requires api.Valid()
    modifies api
    ensures api.Interfered() && turn.conflict && turn.existing == api.stored
    ensures api.failures == old(api.failures) && api.requests == old(api.requests)
    ensures turn.outcome == if turn.existing.None? then Some(UpdateConflicted) else if IsTerminating(turn.existing)
            then Some(TerminatingRaised) else None
  {
    var latest := api.Get();
    if latest.None? {
      return Turn(Some(UpdateConflicted), latest, true);
    }
    if IsTerminating(latest) {
      return Turn(Some(TerminatingRaised), latest, true);
    }
    return Turn(None, latest, true);
  }

  lemma ReadIsReplaced(states: seq<Option<Session>>, revision: nat, readAt: nat, at: nat)
    requires VersionsGrow(states, revision) && readAt < |states| && at < |states|
    requires states[readAt].Some? && states[at].Some?
    requires states[readAt].value.resourceVersion == states[at].value.resourceVersion
    ensures readAt == at
  {
  }

  /** One turn of the loop on a version that does not match, within a call that began to look at `firstAt`. */
  method TakeTurn(api: Server, spec: Spec, latest: Option<Session>, ghost firstAt: nat, ghost conflict: bool,
      ghost before: set<nat>)
    returns (turn: Turn)
    requires api.Valid() && api.stored == latest && !IsTerminating(latest) && !SpecMatches(latest, spec)
    requires firstAt < |api.states| && SpecWrites(api.states, before, api.own, spec)
    requires conflict ==> Disturbed(api.states, api.own, firstAt)
    modifies api
    ensures TurnKept(api, spec, turn) && SpecWrites(api.states, before, api.own, spec)
    ensures conflict || turn.conflict ==> Disturbed(api.states, api.own, firstAt)
    ensures latest.None? ==> WasMissing(api.states, firstAt)
    ensures turn.outcome.None? ==> !IsTerminating(turn.existing)
    ensures turn.outcome.None? && !turn.conflict ==> Unmatched(latest, spec) && Unmatched(turn.existing, spec)
    ensures turn.outcome.Some? && !turn.conflict && !turn.outcome.value.UpdateFailed? ==>
            turn.outcome.value.Done? && (latest.Some? ==> AllAbsorb(latest.value.spec, spec))
  {
    ghost var states, own := api.states, api.own;
    if latest.None? {
      turn := CreateTurn(api, spec);
    } else {
      turn := PatchTurn(api, spec, latest.value);
      PatchConvergesIff(latest.value.spec, spec);
      AbsorbingStays(latest.value.spec, spec);
    }
    WasMissingStays(api.states, firstAt, |states| - 1);
    WritesAccumulate(states, before, own, spec, api.states, api.own);
    DisturbanceStays(states, own, api.states, api.own, firstAt, conflict, turn.conflict);
  }

  /** What an undisturbed call comes to, from the version it read first. */
  ghost predicate Settled(first: Option<Session>, spec: Spec, outcome: SpecOutcome) {
    if IsTerminating(first) then outcome.TerminatingRaised?
    else if first.None? || SpecMatches(first, spec) || AllAbsorb(first.value.spec, spec) then outcome.Done?
    else outcome.NotConverged?
  }

  /**
   * A normal return is a state the object was in during the call, not being deleted, that matches the
   * requested spec on every field but `requestedAt`; the errors are about such a state too: it was being
   * deleted, it did not match, or a foreign write got in the way. Whatever the outcome, no write of this
   * call landed on an object that was being deleted. A call that nobody disturbed after its first read, and
   * none of whose requests failed, returns normally exactly if every requested field absorbs what was stored.
   */
  method CreateOrUpdateSession(api: Server, spec: Spec)
    returns (outcome: SpecOutcome, ghost existing: Option<Session>, ghost at: nat, ghost firstAt: nat)
    requires api.Valid()
    modifies api
    ensures api.Valid() && old(api.states) <= api.states
    ensures SeenAt(api.states, |old(api.states)| - 1, existing, at)
    ensures |old(api.states)| - 1 <= firstAt < |api.states|
    ensures api.failures >= old(api.failures) && old(api.requests) <= api.requests <= old(api.requests) + 3
    ensures Justified(outcome, existing, spec, Disturbed(api.states, api.own, firstAt),
                WasMissing(api.states, firstAt), api.requests - old(api.requests), api.failures - old(api.failures))
    ensures SpecWrites(api.states, old(api.own), api.own, spec)
    ensures IsTerminating(api.states[firstAt]) || Agrees(api.states[firstAt], spec) ==>
            api.requests == old(api.requests)
    ensures !Disturbed(api.states, api.own, firstAt) && api.failures == old(api.failures) ==>
            Settled(api.states[firstAt], spec, outcome)
  {
    var latest := api.Get();
    firstAt := |api.states| - 1;
    ghost var first := latest;
    AgreesMeans(first, spec);
    var conflict := false;
    var attempt: nat := 0;
    while attempt < MAX_CAS_RETRIES
      invariant attempt <= MAX_CAS_RETRIES
      invariant api.Valid() && old(api.states) <= api.states && latest == api.stored
      invariant |old(api.states)| - 1 <= firstAt < |api.states| && api.states[firstAt] == first
      invariant api.failures == old(api.failures) && api.requests == old(api.requests) + attempt
      invariant SpecWrites(api.states, old(api.own), api.own, spec)
      invariant conflict ==> Disturbed(api.states, api.own, firstAt)
      invariant attempt > 0 ==> !IsTerminating(latest) && !IsTerminating(first) && !Agrees(first, spec)
      invariant attempt == 0 ==> latest == first
      invariant attempt > 0 && !conflict ==> Unmatched(first, spec) && Unmatched(latest, spec)
    {
      existing, at := latest, |api.states| - 1;
      AgreesMeans(latest, spec);
      if IsTerminating(latest) {
        outcome := TerminatingRaised;
        return;
      }
      if SpecMatches(latest, spec) {
        outcome := Done(latest);
        return;
      }
      var turn := TakeTurn(api, spec, latest, firstAt, conflict, old(api.own));
      latest := turn.existing;
      conflict := conflict || turn.conflict;
      existing, at := latest, |api.states| - 1;
      if turn.outcome.Some? {
        outcome := turn.outcome.value;
        return;
      }
      attempt := attempt + 1;
    }
    existing, at := latest, |api.states| - 1;
    AgreesMeans(latest, spec);
    if SpecMatches(latest, spec) {
      outcome := Done(latest);
      return;
    }
    outcome := if conflict then UpdateConflicted else NotConverged;
  }

  /** A version that does not match, nor will after any number of patches. */
  ghost predicate Unmatched(stored: Option<Session>, spec: Spec) {
    stored.Some? && !SpecMatches(stored, spec) && !AllAbsorb(stored.value.spec, spec)
  }

  lemma AbsorbingStays(current: Spec, spec: Spec)
    ensures AllAbsorb(Json.MergeFields(current, spec), spec) <==> AllAbsorb(current, spec)
  {
    assert Merged(current, spec, 0) == current;
    assert Merged(current, spec, 1) == Json.MergeFields(Merged(current, spec, 0), spec);
    MergingKeepsAbsorbing(current, spec, 1);
  }

  lemma DisturbanceStays(states: seq<Option<Session>>, own: set<nat>, states': seq<Option<Session>>, own': set<nat>,
      since: nat, before: bool, now: bool)
    requires 0 < |states| && states <= states' && own <= own' && since < |states|
    requires forall i :: i in own' ==> i in own || |states| - 1 <= i
    requires before ==> Disturbed(states, own, since)
    requires now ==> Disturbed(states', own', |states| - 1)
    ensures before || now ==> Disturbed(states', own', since)
  {
    if before {
      var i :| since <= i && i + 1 < |states| && i !in own;
    } else if now {
      var i :| |states| - 1 <= i && i + 1 < |states'| && i !in own';
    }
  }

  lemma WritesAccumulate(states: seq<Option<Session>>, before: set<nat>, own: set<nat>, spec: Spec,
      states': seq<Option<Session>>, own': set<nat>)
    requires SpecWrites(states, before, own, spec) && SpecWrites(states', own, own', spec) && states <= states'
    ensures SpecWrites(states', before, own', spec)
  {
    forall i | i in own' - before ensures SpecWrite(states', i, spec) {
      if i in own {
        assert SpecWrite(states, i, spec);
      }
    }
  }
}
