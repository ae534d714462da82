/** When an undisturbed attempt leaves its VM behind, and how the next one finds a VM that was left behind. */
module VmRecovery {
  import opened Prelude
  import opened Sessions
  import opened VmPool
  import opened VmProtocol
  import opened VmInvariants
  import opened VmGuarantees
  import opened VmPlaces
  import opened VmRuns
  import opened PoolDemand
  import S = Serialisability

  /** The binding is the object's current one and has a VM there, which is not this one. */
  predicate HasAnother(stored: Option<Session>, b: string, vm: string) {
    var binding := OrEmpty(stored).status.binding;
    binding.id == b && binding.vmRef.Some? && binding.vmRef.value.name != vm
  }

  /**
   * Over the version just read, the persist call neither raises nor answers true unwritten, except where the
   * binding has a VM.
   */
  lemma FreshPersistFails(w: World, t: nat)
    requires Inv(w) && t in w.workers && w.workers[t].stage.Persisting? && w.workers[t].stage.look == Some(w.stored)
    requires Holds(w.workers[t])
    ensures !PersistFails(w, t, S.Delivered)
    ensures TrueUnwritten(w, t) <==> CurrentBinding(w).id == w.workers[t].binding && CurrentBinding(w).vmRef.Some?
  {
    assert w.workers[t].binding != "";
    if w.stored.Some? && CurrentBinding(w).id != "" {
      CurrentLease(w);
    }
  }

  /**
   * In every reachable state: a persist call that has just read the object and is not disturbed leaves its
   * VM behind exactly if the object names another VM for the binding. Where that one still is the
   * assistant's desk in its zone, this means exactly that the two lie in different zones.
   */
  lemma UndisturbedPersistLeavesBehind(w0: World, actions: seq<Action>, t: nat, u: string)
    requires Initial(w0) && Behaviour(w0, actions)
    requires var w := Run(w0, actions);
             && t in w.workers && w.workers[t].stage.Persisting? && w.workers[t].stage.look == Some(w.stored)
                 && Holds(w.workers[t])
             && IsAssignedTo(w.pool, HeldVm(w.workers[t]), w.workers[t].binding)
    ensures var w := Run(w0, actions); var worker := w.workers[t]; var vm := HeldVm(worker);
            && (LeftBehind(PersistWrite(w, t, S.Delivered), vm) <==> HasAnother(w.stored, worker.binding, vm))
            && (Names(w.stored, worker.binding, u) && IsAssigned(w.pool, u) && w.pool.labels[u].attached ==>
                  (HasAnother(w.stored, worker.binding, vm) <==> w.pool.labels[u].zone != w.pool.labels[vm].zone))
  {
    ReachableInv(w0, actions);
    var w := Run(w0, actions);
    var vm := HeldVm(w.workers[t]);
    PersistAccounts(w, t, S.Delivered, vm);
    FreshPersistFails(w, t);
    assert HasIt(w.workers[t], w.pool.labels, vm);
    DesksApart(w, u, vm);
  }

  lemma DesksApart(w: World, u: string, vm: string)
    requires PoolOk(w.pool) && IsAssigned(w.pool, vm) && w.pool.labels[vm].attached
    ensures IsAssigned(w.pool, u) && w.pool.labels[u].attached ==>
            (u != vm <==> w.pool.labels[u].zone != w.pool.labels[vm].zone)
  {
    if IsAssigned(w.pool, u) && w.pool.labels[u].attached {
      OneDeskPerZone(w.pool, u, vm);
    }
  }

  /**
   * A pass that hands over its won id late: whatever happened since, if nobody interferes any more, the
   * worker's VM is left behind exactly if the object names another one for the binding by now.
   */
  lemma LateWorkerLeavesBehind(w0: World, actions: seq<Action>, c: nat, t: nat, zone: string, ref: VmRef,
      secret: string)
    requires Initial(w0) && Behaviour(w0, actions)
    requires var w := Run(w0, actions); CanWork(w, c, t, zone) && MayGive(w.pool, w.claims[c].binding, zone, ref.name)
    ensures var w := Run(w0, actions); var late := Working(c, t, ref, secret) + [WritePersist(t, S.Delivered)];
            Behaviour(w, late) && (LeftBehind(Run(w, late), ref.name) <==>
                HasAnother(w.stored, w.claims[c].binding, ref.name))
  {
    ReachableInv(w0, actions);
    var w := Run(w0, actions);
    WorksUndisturbed(w, c, t, zone, ref, secret);
    RunKeeps(w, Working(c, t, ref, secret));
    var w1 := Worked(w, c, t, zone, ref, secret);
    GiveKeeps(w.pool, w.claims[c].binding, zone, ref.name);
    OneStep(w1, WritePersist(t, S.Delivered));
    RunOn(w, Working(c, t, ref, secret), [WritePersist(t, S.Delivered)]);
    PersistAccounts(w1, t, S.Delivered, ref.name);
    FreshPersistFails(w1, t);
    assert HasIt(w1.workers[t], w1.pool.labels, ref.name);
  }

  /**
   * A VM its binding has already, left behind or not, is what the binding's next attempt gets exactly if it
   * is the binding's desk in the zone asked for; the attempt then gets no other and cannot claim a second one.
   */
  lemma AttemptGetsOwnVm(w0: World, actions: seq<Action>, t: nat, vm: string, ref: VmRef, secret: string,
      attached: bool)
    requires Initial(w0) && Behaviour(w0, actions)
    requires var w := Run(w0, actions);
             t in w.workers && w.workers[t].stage.Placing? && IsAssignedTo(w.pool, vm, w.workers[t].binding)
    ensures var w := Run(w0, actions); var b, zone := w.workers[t].binding, w.workers[t].stage.zone;
            && (ref.name == vm ==> (Enabled(w, Obtain(t, ref, secret)) <==> IsDesk(w.pool, vm, b, zone)))
            && (IsDesk(w.pool, vm, b, zone) && Enabled(w, Obtain(t, ref, secret)) ==>
                  ref.name == vm && WithAWorker(Step(w, Obtain(t, ref, secret)), vm))
            && (IsDesk(w.pool, vm, b, zone) ==> !Enabled(w, Torn(t, ref.name, attached)))
  {
    ReachableInv(w0, actions);
    var w := Run(w0, actions);
    OwnVmIsGivenBack(w.pool, w.workers[t].binding, w.workers[t].stage.zone, vm, ref.name);
    if ref.name == vm && Enabled(w, Obtain(t, ref, secret)) {
      var w' := Step(w, Obtain(t, ref, secret));
      assert t in w'.workers && HasIt(w'.workers[t], w'.pool.labels, vm);
    }
  }

  /** The binding of a VM left behind may be served again, in the VM's zone. */
  predicate CanBeServed(w: World, desk: Label, staleAfter: Time) {
    && CanBeClaimed(w, desk.binding, staleAfter) && desk.binding !in w.inflight
    && var placement := PlacementOf(OrEmpty(w.stored), w.catalog);
    placement.Placed? && placement.placement.Some? && placement.placement.value.zone == desk.zone
  }

  function WholeAttempt(c: nat, t: nat, b: string, attempt: string, staleAfter: Time, ref: VmRef,
      secret: string): seq<Action> {
    Claiming(c, b, attempt, staleAfter) + (Working(c, t, ref, secret) + [WritePersist(t, S.Delivered), Finish(t)])
  }

  /** A claim leaves the session's placement and the pool alone, so its worker can get to work. */
  lemma ClaimedCanWork(w: World, c: nat, t: nat, attempt: string, desk: Label, staleAfter: Time)
    requires CanBeServed(w, desk, staleAfter) && t !in w.workers
    ensures CanWork(Claimed(w, c, desk.binding, attempt, staleAfter), c, t, desk.zone)
  {
  }

  /** Its worker, given the VM, can store it. */
  lemma WorkedCanStore(w: World, c: nat, t: nat, attempt: string, desk: Label, staleAfter: Time, ref: VmRef,
      secret: string)
    requires CanBeServed(w, desk, staleAfter) && ref.name != ""
    ensures CanStore(Worked(Claimed(w, c, desk.binding, attempt, staleAfter), c, t, desk.zone, ref, secret), t)
  {
  }

  /** The states the whole attempt goes through, given the binding's own VM. */
  lemma AttemptUndisturbed(w: World, c: nat, t: nat, attempt: string, desk: Label, staleAfter: Time, ref: VmRef,
      secret: string)
    requires Inv(w) && Enabled(w, BeginClaim(c, desk.binding, attempt, staleAfter)) && t !in w.workers
    requires CanBeServed(w, desk, staleAfter) && MayGive(w.pool, desk.binding, desk.zone, ref.name) && ref.name != ""
    ensures CanStore(Worked(Claimed(w, c, desk.binding, attempt, staleAfter), c, t, desk.zone, ref, secret), t)
    ensures var again := WholeAttempt(c, t, desk.binding, attempt, staleAfter, ref, secret);
            Behaviour(w, again) && Run(w, again) ==
                Stored(Worked(Claimed(w, c, desk.binding, attempt, staleAfter), c, t, desk.zone, ref, secret), t)
  {
    LeaseDecidesClaimable(w, desk.binding, staleAfter);
    ClaimsUndisturbed(w, c, desk.binding, attempt, staleAfter);
    var w1 := Claimed(w, c, desk.binding, attempt, staleAfter);
    ClaimedCanWork(w, c, t, attempt, desk, staleAfter);
    WorksUndisturbed(w1, c, t, desk.zone, ref, secret);
    WorkedCanStore(w, c, t, attempt, desk, staleAfter, ref, secret);
    StoresUndisturbed(Worked(w1, c, t, desk.zone, ref, secret), t);
    var storing := [WritePersist(t, S.Delivered), Finish(t)];
    RunOn(w1, Working(c, t, ref, secret), storing);
    RunOn(w, Claiming(c, desk.binding, attempt, staleAfter), Working(c, t, ref, secret) + storing);
  }

  /** What the whole attempt has changed of the world outside the session. */
  lemma AttemptLeaves(w: World, c: nat, t: nat, attempt: string, desk: Label, staleAfter: Time, ref: VmRef,
      secret: string)
    requires w.stored.Some? && t !in w.workers && Adopts(w.pool, desk.binding, desk.zone)
    requires CanStore(Worked(Claimed(w, c, desk.binding, attempt, staleAfter), c, t, desk.zone, ref, secret), t)
    ensures var w' := Stored(Worked(Claimed(w, c, desk.binding, attempt, staleAfter), c, t, desk.zone, ref, secret), t);
            && CurrentBinding(w').id == desk.binding && CurrentBinding(w').vmRef == Some(ref)
            && w'.pool == w.pool && w'.workers == w.workers
  {
    var held := Worked(Claimed(w, c, desk.binding, attempt, staleAfter), c, t, desk.zone, ref, secret);
    assert held.workers - {t} == w.workers;
    StoredNamesIt(held, t);
  }

  /**
   * A VM left behind with the assistant's disk, by a torn pool call, a raised persist or a failed hand-back
   * alike, is stored by the next undisturbed attempt of its binding in its zone.
   */
  lemma NextAttemptRecovers(w0: World, actions: seq<Action>, vm: string, c: nat, t: nat, attempt: string,
      staleAfter: Time, ref: VmRef, secret: string)
    requires Initial(w0) && Behaviour(w0, actions)
    requires var w := Run(w0, actions);
             && LeftBehind(w, vm) && w.pool.labels[vm].attached && CanBeServed(w, w.pool.labels[vm], staleAfter)
             && Enabled(w, BeginClaim(c, w.pool.labels[vm].binding, attempt, staleAfter)) && t !in w.workers
                 && ref.name == vm
    ensures var w := Run(w0, actions);
            var again := WholeAttempt(c, t, w.pool.labels[vm].binding, attempt, staleAfter, ref, secret);
            && Behaviour(w, again)
            && var w' := Run(w, again);
            StoredIn(w'.pool, w'.stored, vm) && CurrentBinding(w').vmRef == Some(ref) && w'.pool == w.pool
                && w'.workers == w.workers
  {
    ReachableInv(w0, actions);
    var w := Run(w0, actions);
    var desk := w.pool.labels[vm];
    OwnVmIsGivenBack(w.pool, desk.binding, desk.zone, vm, vm);
    AttemptUndisturbed(w, c, t, attempt, desk, staleAfter, ref, secret);
    AttemptLeaves(w, c, t, attempt, desk, staleAfter, ref, secret);
  }
}
