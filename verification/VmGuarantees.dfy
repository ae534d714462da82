/** What the VM-assignment protocol guarantees over whole runs. */
module VmGuarantees {
  import opened Prelude
  import opened Sessions
  import opened VmAssignment
  import opened VmProtocol
  import opened VmInvariants
  import opened PoolDemand
  import S = Serialisability
  import L = VmLease
  import Json

  // ---- one winner, and the guards ----

  lemma ReachableInv(w0: World, actions: seq<Action>)
    requires Initial(w0) && Behaviour(w0, actions)
    ensures Inv(Run(w0, actions))
  {
    InitialInv(w0);
    RunKeeps(w0, actions);
  }

  /**
   * Over any run: unless another writer put its own lease back in between, an attempt commits one outcome and
   * a superseded attempt none; and between two VMs committed for one binding another writer took the first off it.
   */
  lemma SingleWinner(w0: World, actions: seq<Action>)
    requires Initial(w0) && Behaviour(w0, actions)
    ensures var log := Run(w0, actions).log;
            && (forall i, j :: 0 <= i < j < |log| && L.SecondOutcome(log[i], log[j]) ==>
                  L.RestoredBetween(log, log[i].binding, log[i].attempt, i, j))
            && (forall i, j :: 0 <= i < j < |log| && L.SecondVm(log[i], log[j]) ==>
                  exists r :: i < r < j && L.Vacates(log, log[i].binding, r))
            && (forall i, j, k :: 0 <= i < j < k < |log| && L.Supersedes(log[i], log[j]) ==>
                  L.OutcomeOf(log[k], log[i]) ==> L.RestoredBetween(log, log[i].binding, log[i].attempt, j, k))
  {
    ReachableInv(w0, actions);
    var log := Run(w0, actions).log;
    forall i, j | 0 <= i < j < |log| && L.SecondOutcome(log[i], log[j])
      ensures L.RestoredBetween(log, log[i].binding, log[i].attempt, i, j)
    {
      L.OneOutcomePerAttempt(log, i, j);
    }
    forall i, j | 0 <= i < j < |log| && L.SecondVm(log[i], log[j])
      ensures exists r :: i < r < j && L.Vacates(log, log[i].binding, r)
    {
      var r := L.VacatedBetweenAssignments(log, i, j);
    }
    forall i, j, k | 0 <= i < j < k < |log| && L.Supersedes(log[i], log[j]) && L.OutcomeOf(log[k], log[i])
      ensures L.RestoredBetween(log, log[i].binding, log[i].attempt, j, k)
    {
      L.SupersededNeverCommits(log, i, j, k);
    }
  }

  // ---- runs in which nobody puts a claim back ----

  /** Other writers may clear a lease or show a VM, but put no claim back on a binding. */
  ghost predicate NeverRestores(w: World, actions: seq<Action>)
    requires Behaviour(w, actions)
    decreases |actions|
  {
    actions == [] ||
    ((actions[0].Rewrite? ==> forall e :: e in RewriteEvents(w, actions[0].next) ==> !L.Restores(e))
     && NeverRestores(Step(w, actions[0]), actions[1..]))
  }

  ghost predicate Unrestored(log: seq<L.Event>) {
    forall k :: 0 <= k < |log| ==> !L.Restores(log[k])
  }

  /** Claims and outcomes put nothing back. */
  lemma CallsRestoreNothing(w: World, a: Action)
    requires Enabled(w, a) && !a.Rewrite? && Unrestored(w.log)
    ensures Unrestored(Step(w, a).log)
  {
  }

  lemma {:induction false} UnrestoredRun(w: World, actions: seq<Action>)
    requires Behaviour(w, actions) && NeverRestores(w, actions) && Unrestored(w.log)
    ensures Unrestored(Run(w, actions).log)
    decreases |actions|
  {
    if actions != [] {
      if !actions[0].Rewrite? {
        CallsRestoreNothing(w, actions[0]);
      }
      UnrestoredRun(Step(w, actions[0]), actions[1..]);
    }
  }

  /**
   * Where nobody puts a claim back, however often leases are cleared and VMs taken off: an attempt commits at
   * most one outcome, and a superseded attempt none.
   */
  lemma OneOutcomeUnlessRestored(w0: World, actions: seq<Action>)
    requires Initial(w0) && Behaviour(w0, actions) && NeverRestores(w0, actions)
    ensures var log := Run(w0, actions).log;
            && (forall i, j :: 0 <= i < j < |log| && L.IsOutcome(log[i]) && L.IsOutcome(log[j]) ==>
                log[i].attempt != log[j].attempt)
            && (forall i, j, k :: 0 <= i < j < k < |log| && L.Supersedes(log[i], log[j]) && L.IsOutcome(log[k]) ==>
                  log[k].attempt != log[i].attempt)
  {
    SingleWinner(w0, actions);
    UnrestoredRun(w0, actions);
  }

  /**
   * Every claim and outcome replaced a version on the target binding that had no VM, was not being deleted, and
   * whose spec named no desired state but "Running"; an outcome also found its own attempt in progress there.
   */
  lemma GuardsHoldAtCommit(w0: World, actions: seq<Action>, i: nat)
    requires Initial(w0) && Behaviour(w0, actions) && i < |Run(w0, actions).log|
    ensures var e := Run(w0, actions).log[i];
            !e.Rewritten? ==>
              var field, binding := Json.Get(e.before.spec, "desiredState"), e.before.status.binding;
              && binding.id == e.binding && binding.vmRef == None
              && !e.before.terminating && (field.Text? ==> field.s == "" || field.s == "Running")
              && (e.Assigned? || e.Settled? ==>
                    && binding.vmAssignment.Some? && binding.vmAssignment.value.state == "in_progress"
                    && binding.vmAssignment.value.attemptId == e.attempt)
  {
    ReachableInv(w0, actions);
    var e := Run(w0, actions).log[i];
    assert L.AllowedAt(Run(w0, actions).log, i);
    if !e.Rewritten? {
      GuardsByField(e.before, e.binding, e.attempt, 0.0, e.at);
    }
  }

  /**
   * A queued worker goes on exactly if the session it reads is there, on its binding, not being deleted, and
   * does not say "Stopped".
   */
  lemma AdmittedExactlyIfCurrent(w: World, t: nat)
    requires Enabled(w, Admit(t))
    ensures var worker := Step(w, Admit(t)).workers[t];
            worker.stage.Admitted? <==>
              && w.stored.Some? && w.stored.value.status.binding.id == worker.binding
              && !w.stored.value.terminating && Json.Get(w.stored.value.spec, "desiredState") != Json.Text("Stopped")
  {
    DesiredStateMeans(OrEmpty(w.stored));
  }

  /**
   * A worker that reads a placement of the catalog asks the pool for its zone, one that reads none refuses, and
   * one that reads anything else ends there.
   */
  lemma PlacementReadDecides(w: World, t: nat)
    requires Enabled(w, ReadPlacement(t))
    ensures var desktop := Json.Get(OrEmpty(w.stored).spec, "desktop");
            var placement := if desktop.Object? then Json.Get(desktop.fields, "placement") else Json.Null;
            var stage := Step(w, ReadPlacement(t)).workers[t].stage;
            match PlacementFromRef(if placement.Object? then placement.fields else map[], w.catalog)
            case Placed(Some(at)) => stage == Placing(at.zone)
            case Placed(None) => stage == Persisting(Result("capacity", NO_PLACEMENT, None, ""), w.clock, 0, None)
            case Invalid(_) => stage == Finished
  {
  }

  /**
   * Lease spacing over any run: two claims of one binding with no outcome and no rewriting between them are
   * a stale limit apart, counted from the earlier claim's recorded `observedAt`.
   */
  lemma LeasesAreSpaced(w0: World, actions: seq<Action>, i: nat, j: nat, limit: Time)
    requires Initial(w0) && Behaviour(w0, actions)
    requires var log := Run(w0, actions).log;
             && i < j < |log| && log[i].Claimed? && log[j].Claimed? && log[i].binding == log[j].binding
             && forall m :: i < m <= j && log[m].binding == log[i].binding ==>
                 log[m].Claimed? && log[m].staleAfter >= limit
    ensures var log := Run(w0, actions).log; log[j].at - log[i].observedAt >= limit
  {
    ReachableInv(w0, actions);
    L.ClaimsAreSpaced(Run(w0, actions).log, i, j, limit);
  }

  /**
   * The VM on the object is one the pool claimed for that very binding, and the last thing that happened
   * to the binding's lease put it there: an assignment, or another writer that put back or found it.
   */
  lemma VmRefWasCommitted(w0: World, actions: seq<Action>) returns (i: nat)
    requires Initial(w0) && Behaviour(w0, actions)
    requires Run(w0, actions).stored.Some? && CurrentBinding(Run(w0, actions)).vmRef.Some?
    ensures var w := Run(w0, actions); var binding := CurrentBinding(w);
            && (binding.vmRef.value.name, binding.id) in w.given
            && i < |w.log| && w.log[i].binding == binding.id && L.After(w.log[i]) == L.Owned(binding.vmRef.value.name)
            && (w.log[i].Assigned? || w.log[i].Rewritten?)
            && forall m :: i < m < |w.log| ==> w.log[m].binding != binding.id
  {
    ReachableInv(w0, actions);
    var w := Run(w0, actions);
    CurrentLease(w);
    assert w.log[..|w.log|] == w.log;
    i := L.LastOn(w.log, CurrentBinding(w).id, |w.log|);
  }

  /** A claim call that won has its write in the log, and one that answered None has none. */
  lemma ClaimAnswersTruthfully(w0: World, actions: seq<Action>)
    requires Initial(w0) && Behaviour(w0, actions)
    ensures var w := Run(w0, actions);
            && (forall c :: c in w.claims ==> (w.claims[c].stage.Won? <==> !L.NeverClaimed(w.log, w.claims[c].attempt)))
            && (forall a :: a in w.declined ==> L.NeverClaimed(w.log, a))
  {
    ReachableInv(w0, actions);
  }

  /** The current binding can be claimed, if nobody interferes. */
  predicate CanBeClaimed(w: World, b: string, staleAfter: Time) {
    && w.stored.Some? && RunsOn(w.stored.value, b)
    && !L.LeaseOf(w.log, b).Owned?
    && (L.LeaseOf(w.log, b).Taken? ==> w.clock - L.LeaseOf(w.log, b).observedAt >= staleAfter)
  }

  /** The lease in the log and the binding on the object agree on whether a claim may be written. */
  lemma LeaseDecidesClaimable(w: World, b: string, staleAfter: Time)
    requires Agreement(w.stored, w.log, w.bindings) && b in w.bindings && w.stored.Some?
    ensures CanBeClaimed(w, b, staleAfter) <==>
            Live(w.stored.value, b) && Claimable(CurrentBinding(w), staleAfter, w.clock)
  {
    GuardsByField(w.stored.value, b, "", staleAfter, w.clock);
  }

  /** An undisturbed claim succeeds exactly on a live binding without a VM whose lease, if taken, is stale. */
  lemma TakeoverExactlyWhenStale(w0: World, actions: seq<Action>, c: nat, b: string, attempt: string, staleAfter: Time)
    requires Initial(w0) && Behaviour(w0, actions)
    requires Enabled(Run(w0, actions), BeginClaim(c, b, attempt, staleAfter))
    ensures var w := Run(w0, actions);
            var w1 := Step(w, BeginClaim(c, b, attempt, staleAfter));
            var w2 := Step(w1, LookClaim(c));
            var w3 := Step(w2, WriteClaim(c, S.Delivered));
            if CanBeClaimed(w, b, staleAfter) then
              && c in w3.claims && w3.claims[c].stage.Won? && w3.stored.Some?
              && w3.stored.value.status.binding.vmAssignment ==
                 Some(VmAssignment("in_progress", attempt, Some(w.clock), ""))
            else c !in w3.claims && attempt in w3.declined
  {
    ReachableInv(w0, actions);
    var w := Run(w0, actions);
    var w2 := ReadsFresh(w, c, b, attempt, staleAfter);
    if w.stored.Some? {
      LeaseDecidesClaimable(w, b, staleAfter);
      UndisturbedClaim(w2, c);
    } else {
      NoAnswerWithoutClaim(w2, c);
    }
  }

  /** The first two requests of an undisturbed claim. */
  lemma ReadsFresh(w: World, c: nat, b: string, attempt: string, staleAfter: Time) returns (w2: World)
    requires Inv(w) && Enabled(w, BeginClaim(c, b, attempt, staleAfter))
    ensures w2 == Step(Step(w, BeginClaim(c, b, attempt, staleAfter)), LookClaim(c)) && Inv(w2)
    ensures w2 == w.(attempts := w.attempts + {attempt},
            claims := w.claims[c := Claim(b, attempt, w.clock, staleAfter, 0, Looking(w.stored))])
  {
    BeginClaimKeeps(w, c, b, attempt, staleAfter);
    var w1 := Step(w, BeginClaim(c, b, attempt, staleAfter));
    LookClaimKeeps(w1, c);
    w2 := Step(w1, LookClaim(c));
  }

  /** The last request of an undisturbed claim. */
  lemma UndisturbedClaim(w: World, c: nat)
    requires Inv(w) && c in w.claims && w.claims[c].stage == Looking(w.stored) && w.stored.Some?
    ensures var claim := w.claims[c];
            ClaimWrite(w, c, S.Delivered) ==
            if Live(w.stored.value, claim.binding) && Claimable(CurrentBinding(w), claim.staleAfter, w.clock)
            then SetClaim(Overwrite(w, WithBinding(w.stored.value,
                ClaimedBinding(CurrentBinding(w), claim.attempt,
                    claim.observedAt)), ClaimEvent(w, claim)), c, claim.tries, Won)
            else EndClaim(w, c).(declined := w.declined + {claim.attempt})
  {
    var claim := w.claims[c];
    NoAnswerWithoutClaim(w, c);
    if Live(w.stored.value, claim.binding) && Claimable(CurrentBinding(w), claim.staleAfter, w.clock) {
      LandedClaimIsAnswered(w, claim);
      ReadOk(w);
      UnclaimedIsNotHeld(w, w.stored, claim.attempt);
      assert HeldBy(ClaimedBinding(CurrentBinding(w), claim.attempt, claim.observedAt), claim.attempt);
    }
  }

  /** The runtime's key set is the keys of the accepted, unfinished tasks, one task to a key. */
  lemma KeysAreUnfinishedTasks(w0: World, actions: seq<Action>)
    requires Initial(w0) && Behaviour(w0, actions)
    ensures var w := Run(w0, actions);
            && w.inflight == (set t | t in w.workers :: w.workers[t].binding)
            && forall t, u :: t in w.workers && u in w.workers && w.workers[t].binding == w.workers[u].binding ==>
                t == u
  {
    ReachableInv(w0, actions);
  }
}
