/** One attempt from claim to stored VM with nobody interfering, request by request. */
module VmRuns {
  import opened Prelude
  import opened Sessions
  import opened VmAssignment
  import opened VmPool
  import opened VmProtocol
  import opened VmInvariants
  import opened VmGuarantees
  import opened PoolDemand
  import S = Serialisability

  // ---- runs given by their states, and runs put together ----

  ghost predicate Trace(states: seq<World>, actions: seq<Action>) {
    && |states| == |actions| + 1
    && forall i :: 0 <= i < |actions| ==> Enabled(states[i], actions[i]) && states[i + 1] == Step(states[i], actions[i])
  }

  lemma {:induction false} TraceIsRun(states: seq<World>, actions: seq<Action>)
    requires Trace(states, actions)
    ensures Behaviour(states[0], actions) && Run(states[0], actions) == states[|actions|]
    decreases |actions|
  {
    if actions != [] {
      TraceIsRun(states[1..], actions[1..]);
    }
  }

  lemma OneStep(w: World, a: Action)
    requires Enabled(w, a)
    ensures Behaviour(w, [a]) && Run(w, [a]) == Step(w, a)
  {
    assert Run(Step(w, a), []) == Step(w, a);
  }

  lemma {:induction false} RunOn(w: World, first: seq<Action>, then_: seq<Action>)
    requires Behaviour(w, first) && Behaviour(Run(w, first), then_)
    ensures Behaviour(w, first + then_) && Run(w, first + then_) == Run(Run(w, first), then_)
    decreases |first|
  {
    if first == [] {
      assert first + then_ == then_;
    } else {
      assert (first + then_)[1..] == first[1..] + then_;
      RunOn(Step(w, first[0]), first[1..], then_);
    }
  }

  // ---- a claim ----

  function Claiming(c: nat, b: string, attempt: string, staleAfter: Time): seq<Action> {
    [BeginClaim(c, b, attempt, staleAfter), LookClaim(c), WriteClaim(c, S.Delivered)]
  }

  /** The state after an undisturbed claim of a claimable binding. */
  function Claimed(w: World, c: nat, b: string, attempt: string, staleAfter: Time): World
    requires w.stored.Some?
  {
    var claim := Claim(b, attempt, w.clock, staleAfter, 0, Won);
    Overwrite(w, WithBinding(w.stored.value, ClaimedBinding(CurrentBinding(w), attempt, w.clock)), ClaimEvent(w, claim))
    .(attempts := w.attempts + {attempt}, claims := w.claims[c := claim])
  }

  /** The last request of the claim, over the version just read. */
  lemma ClaimIsWritten(w: World, w2: World, c: nat, b: string, attempt: string, staleAfter: Time)
    requires Inv(w2) && w.stored.Some? && Live(w.stored.value, b) && Claimable(CurrentBinding(w), staleAfter, w.clock)
    requires w2 == w.(attempts := w.attempts + {attempt},
             claims := w.claims[c := Claim(b, attempt, w.clock, staleAfter, 0, Looking(w.stored))])
    ensures ClaimWrite(w2, c, S.Delivered) == Claimed(w, c, b, attempt, staleAfter)
  {
    UndisturbedClaim(w2, c);
    assert w2.claims[c := Claim(b, attempt, w.clock, staleAfter, 0, Won)] ==
        w.claims[c := Claim(b, attempt, w.clock, staleAfter, 0, Won)];
  }

  lemma ReadsUndisturbed(w: World, c: nat, b: string, attempt: string, staleAfter: Time) returns (w2: World)
    requires Inv(w) && Enabled(w, BeginClaim(c, b, attempt, staleAfter))
    ensures var actions := [BeginClaim(c, b, attempt, staleAfter), LookClaim(c)];
            Behaviour(w, actions) && Run(w, actions) == w2 && Inv(w2)
    ensures w2 == w.(attempts := w.attempts + {attempt},
            claims := w.claims[c := Claim(b, attempt, w.clock, staleAfter, 0, Looking(w.stored))])
  {
    w2 := ReadsFresh(w, c, b, attempt, staleAfter);
    var w1 := Step(w, BeginClaim(c, b, attempt, staleAfter));
    TraceIsRun([w, w1, w2], [BeginClaim(c, b, attempt, staleAfter), LookClaim(c)]);
  }

  lemma ClaimsUndisturbed(w: World, c: nat, b: string, attempt: string, staleAfter: Time)
    requires Inv(w) && Enabled(w, BeginClaim(c, b, attempt, staleAfter))
    requires w.stored.Some? && Live(w.stored.value, b) && Claimable(CurrentBinding(w), staleAfter, w.clock)
    ensures Behaviour(w, Claiming(c, b, attempt, staleAfter))
    ensures Run(w, Claiming(c, b, attempt, staleAfter)) == Claimed(w, c, b, attempt, staleAfter)
  {
    var first, last := [BeginClaim(c, b, attempt, staleAfter), LookClaim(c)], [WriteClaim(c, S.Delivered)];
    var w2 := ReadsUndisturbed(w, c, b, attempt, staleAfter);
    ClaimIsWritten(w, w2, c, b, attempt, staleAfter);
    OneStep(w2, last[0]);
    RunOn(w, first, last);
    assert first + last == Claiming(c, b, attempt, staleAfter);
  }

  // ---- the worker, up to reading the session for its persist call ----

  function Working(c: nat, t: nat, vm: VmRef, secret: string): seq<Action> {
    [Submit(c, t), Admit(t), ReadPlacement(t), Obtain(t, vm, secret), LookPersist(t)]
  }

  /** The pass may hand over its won id, and the worker will find the session current and placed in `zone`. */
  predicate CanWork(w: World, c: nat, t: nat, zone: string) {
    && c in w.claims && w.claims[c].stage.Won? && t !in w.workers
    && w.claims[c].binding !in w.inflight && IsCurrent(w, w.claims[c].binding)
    && var placement := PlacementOf(OrEmpty(w.stored), w.catalog);
    placement.Placed? && placement.placement.Some? && placement.placement.value.zone == zone
  }

  function Holding(w: World, vm: VmRef, secret: string): WorkerStage {
    Persisting(Result(ASSIGNED, "", Some(vm), secret), w.clock, 0, Some(w.stored))
  }

  /** The state once the worker holds the VM and has read the session. */
  function Worked(w: World, c: nat, t: nat, zone: string, vm: VmRef, secret: string): World
    requires c in w.claims
  {
    var claim := w.claims[c];
    w.(claims := w.claims - {c},
       submitted := w.submitted + {claim.attempt},
       inflight := w.inflight + {claim.binding},
       workers := w.workers[t := Worker(claim.binding, claim.attempt, Holding(w, vm, secret))],
       pool := Give(w.pool, claim.binding, zone, vm.name),
       given := w.given + {(vm.name, claim.binding)})
  }

  /** The state once the worker asks the pool. */
  function Asking(w: World, c: nat, t: nat, zone: string): World
    requires c in w.claims
  {
    var claim := w.claims[c];
    w.(claims := w.claims - {c},
       submitted := w.submitted + {claim.attempt},
       inflight := w.inflight + {claim.binding},
       workers := w.workers[t := Worker(claim.binding, claim.attempt, Placing(zone))])
  }

  lemma AsksUndisturbed(w: World, c: nat, t: nat, zone: string)
    requires CanWork(w, c, t, zone)
    ensures var actions := [Submit(c, t), Admit(t), ReadPlacement(t)];
            Behaviour(w, actions) && Run(w, actions) == Asking(w, c, t, zone)
  {
    var actions := [Submit(c, t), Admit(t), ReadPlacement(t)];
    var w1 := Step(w, Submit(c, t));
    var w2 := Step(w1, Admit(t));
    var w3 := Step(w2, ReadPlacement(t));
    assert w3.workers == Asking(w, c, t, zone).workers;
    TraceIsRun([w, w1, w2, w3], actions);
  }

  lemma ObtainsUndisturbed(w: World, c: nat, t: nat, zone: string, vm: VmRef, secret: string)
    requires CanWork(w, c, t, zone) && MayGive(w.pool, w.claims[c].binding, zone, vm.name)
    ensures var actions := [Obtain(t, vm, secret), LookPersist(t)]; var asking := Asking(w, c, t, zone);
            Behaviour(asking, actions) && Run(asking, actions) == Worked(w, c, t, zone, vm, secret)
  {
    var actions := [Obtain(t, vm, secret), LookPersist(t)];
    var asking := Asking(w, c, t, zone);
    var w1 := Step(asking, Obtain(t, vm, secret));
    var w2 := Step(w1, LookPersist(t));
    assert w2.workers == Worked(w, c, t, zone, vm, secret).workers;
    TraceIsRun([asking, w1, w2], actions);
  }

  lemma WorksUndisturbed(w: World, c: nat, t: nat, zone: string, vm: VmRef, secret: string)
    requires CanWork(w, c, t, zone) && MayGive(w.pool, w.claims[c].binding, zone, vm.name)
    ensures Behaviour(w, Working(c, t, vm, secret))
    ensures Run(w, Working(c, t, vm, secret)) == Worked(w, c, t, zone, vm, secret)
  {
    AsksUndisturbed(w, c, t, zone);
    ObtainsUndisturbed(w, c, t, zone, vm, secret);
    var first, second := [Submit(c, t), Admit(t), ReadPlacement(t)], [Obtain(t, vm, secret), LookPersist(t)];
    RunOn(w, first, second);
    assert first + second == Working(c, t, vm, secret);
  }

  // ---- the persist call ----

  /** The state after an undisturbed persist call of the attempt that still holds the lease, and the end of its task. */
  function Stored(w: World, t: nat): World
    requires w.stored.Some? && t in w.workers && w.workers[t].stage.Persisting?
  {
    var worker := w.workers[t];
    Overwrite(w, WithBinding(w.stored.value,
        PersistedBinding(CurrentBinding(w), worker.attempt, worker.stage.result,
            worker.stage.observedAt)), OutcomeEvent(w, worker))
    .(workers := w.workers - {t}, inflight := w.inflight - {worker.binding})
  }

  /** The lease is still this worker's, and it has just read so. */
  predicate CanStore(w: World, t: nat) {
    && t in w.workers && Holds(w.workers[t]) && w.workers[t].stage.Persisting?
        && w.workers[t].stage.look == Some(w.stored)
    && w.stored.Some? && Live(w.stored.value, w.workers[t].binding) && HeldBy(CurrentBinding(w), w.workers[t].attempt)
  }

  lemma PersistIsWritten(w: World, t: nat)
    requires CanStore(w, t)
    ensures var worker := w.workers[t];
            PersistWrite(w, t, S.Delivered) ==
            SetWorker(Overwrite(w, WithBinding(w.stored.value,
                PersistedBinding(CurrentBinding(w), worker.attempt, worker.stage.result,
                    worker.stage.observedAt)), OutcomeEvent(w, worker)), t, Finished)
  {
  }

  lemma StoresUndisturbed(w: World, t: nat)
    requires CanStore(w, t)
    ensures var actions := [WritePersist(t, S.Delivered), Finish(t)];
            Behaviour(w, actions) && Run(w, actions) == Stored(w, t)
  {
    PersistIsWritten(w, t);
    var w1 := PersistWrite(w, t, S.Delivered);
    var w2 := Step(w1, Finish(t));
    assert w2.workers == w.workers - {t};
    TraceIsRun([w, w1, w2], [WritePersist(t, S.Delivered), Finish(t)]);
  }

  /** The object then names this VM under the worker's binding. */
  lemma StoredNamesIt(w: World, t: nat)
    requires CanStore(w, t)
    ensures var stored := Stored(w, t); var worker := w.workers[t];
            CurrentBinding(stored).id == worker.binding && CurrentBinding(stored).vmRef == worker.stage.result.vmRef
                && stored.pool == w.pool
  {
  }
}
