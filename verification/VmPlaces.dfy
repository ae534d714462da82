/** Where the VMs of an assistant are, and which steps leave one behind or find it again. */
module VmPlaces {
  import opened Prelude
  import opened Sessions
  import opened VmAssignment
  import opened VmPool
  import opened VmProtocol
  import opened VmInvariants
  import opened VmGuarantees
  import S = Serialisability

  // ---- where a VM is ----

  /** The worker holds the VM and works for the binding whose label the VM carries. */
  predicate HasIt(worker: Worker, labels: map<string, Label>, vm: string) {
    Holds(worker) && HeldVm(worker) == vm && vm in labels && labels[vm].binding == worker.binding
  }

  ghost predicate WithAWorker(w: World, vm: string) {
    exists t :: t in w.workers && HasIt(w.workers[t], w.pool.labels, vm)
  }

  predicate Names(stored: Option<Session>, b: string, vm: string) {
    var binding := OrEmpty(stored).status.binding;
    binding.id == b && binding.vmRef.Some? && binding.vmRef.value.name == vm
  }

  /** The object names the VM as that of the binding whose label it carries. */
  predicate StoredIn(pool: Pool, stored: Option<Session>, vm: string) {
    vm in pool.labels && Names(stored, pool.labels[vm].binding, vm)
  }

  /** Out of the idle pool and not in release, but neither with its binding's worker nor on the object. */
  ghost predicate LeftBehind(w: World, vm: string) {
    IsAssigned(w.pool, vm) && !StoredIn(w.pool, w.stored, vm) && !WithAWorker(w, vm)
  }

  /** The persist call answers true although it wrote nothing: the version read shows some VM on the binding. */
  predicate TrueUnwritten(w: World, t: nat)
    requires t in w.workers && w.workers[t].stage.Persisting? && w.workers[t].stage.look.Some?
  {
    var worker := w.workers[t];
    var snapshot := worker.stage.look.value;
    && PersistDecided(snapshot, worker.binding, worker.attempt, worker.stage.result,
        worker.stage.observedAt).ReturnCurrent?
    && PersistAnswer(snapshot, worker.binding, worker.attempt, worker.stage.result.state)
  }

  /**
   * The steps that leave a VM behind: the pool call raises after claiming it; a VM elsewhere is rejected
   * without a release; a persist call of it raises unwritten, or answers true unwritten while the object does
   * not name it; handing it back fails; or another writer takes it off the object before its release is
   * requested.
   */
  ghost predicate Mishap(w: World, a: Action, vm: string)
    requires Enabled(w, a)
  {
    match a
    case Torn(t, name, _) => name == vm && !Names(w.stored, w.workers[t].binding, vm)
    case Misplaced(t, name, _, _, released) => name == vm && !Names(w.stored, w.workers[t].binding, vm) && !released
    case WritePersist(t, luck) =>
      && HasIt(w.workers[t], w.pool.labels, vm) && IsAssigned(w.pool, vm) && !StoredIn(w.pool, w.stored, vm)
      && (PersistFails(w, t, luck) || TrueUnwritten(w, t))
    case HandBack(t, released) =>
      HasIt(w.workers[t], w.pool.labels, vm) && IsAssigned(w.pool, vm) && !StoredIn(w.pool, w.stored, vm) && !released
    case Rewrite(next) =>
      IsAssigned(w.pool, vm) && StoredIn(w.pool, w.stored, vm) && !StoredIn(w.pool, next, vm) && !WithAWorker(w, vm)
    case _ => false
  }

  /** The steps that find a VM again: its binding is given it, another writer names it, or it leaves the assistant. */
  predicate Recovery(w: World, a: Action, vm: string) {
    match a
    case Obtain(_, ref, _) => ref.name == vm
    case Misplaced(_, name, _, _, released) => name == vm && released
    case Rewrite(next) => StoredIn(w.pool, next, vm)
    case ReleaseVm(name) => name == vm
    case RemoveVm(name, _) => name == vm
    case _ => false
  }

  // ---- what each step does to it ----

  /** Worker `t` apart, which does not have `vm` before or after, the two states have the same holders of it. */
  lemma OthersHaveIt(w: World, w': World, t: nat, vm: string)
    requires w'.pool.labels == w.pool.labels && w'.workers.Keys - {t} == w.workers.Keys - {t}
    requires forall u :: u in w.workers && u != t ==> u in w'.workers && w'.workers[u] == w.workers[u]
    requires (t in w.workers && HasIt(w.workers[t], w.pool.labels, vm)) <==>
             (t in w'.workers && HasIt(w'.workers[t], w.pool.labels, vm))
    ensures WithAWorker(w', vm) <==> WithAWorker(w, vm)
  {
    if u :| u in w.workers && HasIt(w.workers[u], w.pool.labels, vm) {
      assert u != t ==> u in w'.workers.Keys - {t};
      assert u in w'.workers && HasIt(w'.workers[u], w'.pool.labels, vm);
    }
    if u :| u in w'.workers && HasIt(w'.workers[u], w'.pool.labels, vm) {
      assert u != t ==> u in w.workers.Keys - {t};
      assert u in w.workers && HasIt(w.workers[u], w.pool.labels, vm);
    }
  }

  /** Claims leave the object's VM alone. */
  lemma ClaimKeepsVm(w: World, c: nat, luck: S.Luck)
    requires Inv(w) && c in w.claims && w.claims[c].stage.Looking?
    ensures var w' := ClaimWrite(w, c, luck);
            CurrentBinding(w').id == CurrentBinding(w).id && CurrentBinding(w').vmRef == CurrentBinding(w).vmRef
  {
    assert SnapshotOk(w.stored, w.revision, w.log, w.claims[c].stage.snapshot);
  }

  /** The write of a persist call lands. */
  predicate PersistLands(w: World, t: nat, luck: S.Luck)
    requires t in w.workers && w.workers[t].stage.Persisting? && w.workers[t].stage.look.Some?
  {
    var worker := w.workers[t];
    var snapshot := worker.stage.look.value;
    && PersistDecided(snapshot, worker.binding, worker.attempt, worker.stage.result, worker.stage.observedAt).Write?
    && !luck.RequestLost? && w.stored.Some? && Matches(w.stored, snapshot)
  }

  /** A persist call that lands puts its VM on the object, which had none, or leaves the object's VM alone. */
  lemma LandedPersist(w: World, t: nat, luck: S.Luck)
    requires t in w.workers && w.workers[t].stage.Persisting? && w.workers[t].stage.look.Some?
    requires PersistLands(w, t, luck) && w.workers[t].stage.look.value == w.stored
    ensures var worker := w.workers[t]; var w' := PersistWrite(w, t, luck);
            && !Holds(w'.workers[t]) && CurrentBinding(w').id == CurrentBinding(w).id == worker.binding
            && CurrentBinding(w').vmRef == if Holds(worker) then worker.stage.result.vmRef else CurrentBinding(w).vmRef
  {
  }

  /**
   * A persist call whose write does not land keeps its VM to try again or to hand it back, unless it raised or
   * answered true.
   */
  lemma MissedPersist(w: World, t: nat, luck: S.Luck)
    requires t in w.workers && w.workers[t].stage.Persisting? && w.workers[t].stage.look.Some?
    requires !PersistLands(w, t, luck)
    ensures PersistWrite(w, t, luck).stored == w.stored
    ensures Holds(PersistWrite(w, t, luck).workers[t]) <==>
            Holds(w.workers[t]) && !PersistFails(w, t, luck) && !TrueUnwritten(w, t)
  {
  }

  /** A landed persist call of this VM stores it; the object had none before. */
  lemma LandedAccounts(w: World, t: nat, luck: S.Luck, vm: string)
    requires Inv(w) && Enabled(w, WritePersist(t, luck)) && PersistLands(w, t, luck)
    ensures LeftBehind(PersistWrite(w, t, luck), vm) <==> LeftBehind(w, vm)
    ensures !Mishap(w, WritePersist(t, luck), vm)
  {
    var w' := PersistWrite(w, t, luck);
    assert SnapshotOk(w.stored, w.revision, w.log, w.workers[t].stage.look.value);
    LandedPersist(w, t, luck);
    CurrentLease(w);
    if HasIt(w.workers[t], w.pool.labels, vm) {
      assert StoredIn(w'.pool, w'.stored, vm);
    } else {
      OthersHaveIt(w, w', t, vm);
    }
  }

  lemma MissedAccounts(w: World, t: nat, luck: S.Luck, vm: string)
    requires Inv(w) && Enabled(w, WritePersist(t, luck)) && !PersistLands(w, t, luck)
    ensures LeftBehind(PersistWrite(w, t, luck), vm) <==> LeftBehind(w, vm) || Mishap(w, WritePersist(t, luck), vm)
  {
    var w' := PersistWrite(w, t, luck);
    MissedPersist(w, t, luck);
    LetsGo(w, w', t, vm);
  }

  /**
   * A worker that moves without the object's VM changing leaves a VM behind exactly if it lets go of one that
   * is not stored.
   */
  lemma LetsGo(w: World, w': World, t: nat, vm: string)
    requires Inv(w) && t in w.workers && w'.pool == w.pool
    requires CurrentBinding(w').id == CurrentBinding(w).id && CurrentBinding(w').vmRef == CurrentBinding(w).vmRef
    requires w'.workers.Keys - {t} == w.workers.Keys - {t} && forall u :: u in w.workers && u != t ==>
             u in w'.workers && w'.workers[u] == w.workers[u]
    requires t in w'.workers ==> w'.workers[t].binding == w.workers[t].binding
    requires t in w'.workers && Holds(w'.workers[t]) ==>
             Holds(w.workers[t]) && HeldVm(w'.workers[t]) == HeldVm(w.workers[t])
    ensures LeftBehind(w', vm) <==>
            LeftBehind(w, vm)
            || (HasIt(w.workers[t], w.pool.labels, vm) && !(t in w'.workers && Holds(w'.workers[t]))
                && IsAssigned(w.pool, vm) && !StoredIn(w.pool, w.stored, vm))
  {
    if HasIt(w.workers[t], w.pool.labels, vm) && !(t in w'.workers && Holds(w'.workers[t])) {
      forall u | u in w'.workers ensures !HasIt(w'.workers[u], w'.pool.labels, vm) {
        assert u != t ==> u in w.workers.Keys - {t};
      }
    } else {
      OthersHaveIt(w, w', t, vm);
    }
  }

  lemma ObtainAccounts(w: World, t: nat, ref: VmRef, secret: string, vm: string)
    requires Inv(w) && Enabled(w, Obtain(t, ref, secret))
    ensures LeftBehind(Step(w, Obtain(t, ref, secret)), vm) <==> LeftBehind(w, vm) && vm != ref.name
  {
    var w' := Step(w, Obtain(t, ref, secret));
    if vm == ref.name {
      GiveKeeps(w.pool, w.workers[t].binding, w.workers[t].stage.zone, vm);
      assert t in w'.workers && HasIt(w'.workers[t], w'.pool.labels, vm);
    } else {
      SameLabel(w, w', t, vm);
    }
  }

  lemma TornAccounts(w: World, t: nat, name: string, attached: bool, vm: string)
    requires Inv(w) && Enabled(w, Torn(t, name, attached))
    ensures LeftBehind(Step(w, Torn(t, name, attached)), vm) <==>
            LeftBehind(w, vm) || Mishap(w, Torn(t, name, attached), vm)
  {
    var w' := Step(w, Torn(t, name, attached));
    if vm == name {
      forall u | u in w'.workers ensures !HasIt(w'.workers[u], w'.pool.labels, vm) {
        assert u in w.workers;
      }
    } else {
      SameLabel(w, w', t, vm);
    }
  }

  lemma MisplacedAccounts(w: World, a: Action, vm: string)
    requires Inv(w) && Enabled(w, a) && a.Misplaced?
    ensures LeftBehind(Step(w, a), vm) <==> (LeftBehind(w, vm) && !Recovery(w, a, vm)) || Mishap(w, a, vm)
  {
    var w' := Step(w, a);
    RejectedKeeps(w.pool, w.workers[a.task].binding, a.zone, a.name, a.released);
    if vm == a.name {
      forall u | u in w'.workers ensures !HasIt(w'.workers[u], w'.pool.labels, vm) {
        assert u in w.workers;
      }
    } else {
      SameLabel(w, w', a.task, vm);
    }
  }

  lemma HandBackAccounts(w: World, t: nat, released: bool, vm: string)
    requires Inv(w) && Enabled(w, HandBack(t, released))
    ensures LeftBehind(Step(w, HandBack(t, released)), vm) <==>
            LeftBehind(w, vm) || Mishap(w, HandBack(t, released), vm)
  {
    var w' := Step(w, HandBack(t, released));
    if HasIt(w.workers[t], w.pool.labels, vm) {
      forall u | u in w'.workers ensures !HasIt(w'.workers[u], w'.pool.labels, vm) {
        assert u in w.workers;
      }
    } else {
      SameLabel(w, w', t, vm);
    }
  }

  /** A step of worker `t` that concerns neither this VM's label nor who has it. */
  lemma SameLabel(w: World, w': World, t: nat, vm: string)
    requires t in w.workers && w'.workers.Keys == w.workers.Keys
    requires forall u :: u in w.workers && u != t ==> w'.workers[u] == w.workers[u]
    requires vm in w'.pool.labels <==> vm in w.pool.labels
    requires vm in w.pool.labels ==> w'.pool.labels[vm] == w.pool.labels[vm]
    requires w'.stored == w.stored
    requires !HasIt(w.workers[t], w.pool.labels, vm) && !HasIt(w'.workers[t], w'.pool.labels, vm)
    ensures LeftBehind(w', vm) <==> LeftBehind(w, vm)
  {
    if u :| u in w.workers && HasIt(w.workers[u], w.pool.labels, vm) {
      assert u in w'.workers && HasIt(w'.workers[u], w'.pool.labels, vm);
    }
    if u :| u in w'.workers && HasIt(w'.workers[u], w'.pool.labels, vm) {
      assert u in w.workers && HasIt(w.workers[u], w.pool.labels, vm);
    }
  }

  /** A release or a removal concerns the VM it names and no other. */
  lemma PoolStepAccounts(w: World, a: Action, vm: string)
    requires Inv(w) && Enabled(w, a) && (a.ReleaseVm? || a.RemoveVm?)
    ensures LeftBehind(Step(w, a), vm) <==> LeftBehind(w, vm) && !Recovery(w, a, vm)
  {
    var w' := Step(w, a);
    if a.name != vm {
      assert forall t :: t in w.workers ==>
          (HasIt(w'.workers[t], w'.pool.labels, vm) <==> HasIt(w.workers[t], w.pool.labels, vm));
    }
  }

  lemma PersistAccounts(w: World, t: nat, luck: S.Luck, vm: string)
    requires Inv(w) && Enabled(w, WritePersist(t, luck))
    ensures LeftBehind(Step(w, WritePersist(t, luck)), vm) <==>
            LeftBehind(w, vm) || Mishap(w, WritePersist(t, luck), vm)
  {
    if PersistLands(w, t, luck) {
      LandedAccounts(w, t, luck, vm);
    } else {
      MissedAccounts(w, t, luck, vm);
    }
  }

  /** Steps of the clock and of the claim calls touch neither the object's VM nor the pool nor the workers. */
  lemma ClaimAccounts(w: World, a: Action, vm: string)
    requires Inv(w) && Enabled(w, a) && (a.Tick? || a.BeginClaim? || a.LookClaim? || a.WriteClaim? || a.Abandon?)
    ensures LeftBehind(Step(w, a), vm) <==> LeftBehind(w, vm)
  {
    if a.WriteClaim? {
      ClaimKeepsVm(w, a.claim, a.luck);
    }
  }

  /** A worker's next stage that keeps what it holds. */
  lemma MoveAccounts(w: World, t: nat, stage: WorkerStage, vm: string)
    requires Inv(w) && t in w.workers
    requires Holds(w.workers[t].(stage := stage)) <==> Holds(w.workers[t])
    requires Holds(w.workers[t]) ==> HeldVm(w.workers[t].(stage := stage)) == HeldVm(w.workers[t])
    ensures LeftBehind(SetWorker(w, t, stage), vm) <==> LeftBehind(w, vm)
  {
    LetsGo(w, SetWorker(w, t, stage), t, vm);
  }

  /** A task joins or leaves the runtime without a VM. */
  lemma TaskAccounts(w: World, a: Action, vm: string)
    requires Inv(w) && Enabled(w, a) && (a.Submit? || a.Finish?)
    ensures LeftBehind(Step(w, a), vm) <==> LeftBehind(w, vm)
  {
    OthersHaveIt(w, Step(w, a), a.task, vm);
  }

  /** The steps that touch neither the object's VM nor the pool, and move no VM. */
  lemma QuietAccounts(w: World, a: Action, vm: string)
    requires Inv(w) && Enabled(w, a)
    requires !(a.Rewrite? || a.Submit? || a.Obtain? || a.Torn? || a.Misplaced? || a.WritePersist? || a.HandBack?
             || a.Finish? || a.ReleaseVm? || a.RemoveVm?)
    ensures LeftBehind(Step(w, a), vm) <==> LeftBehind(w, vm)
  {
    match a
    case Admit(t) => MoveAccounts(w, t, if IsCurrent(w, w.workers[t].binding) then Admitted else Finished, vm);
    case ReadPlacement(t) => MoveAccounts(w, t, StageAfterPlacement(w), vm);
    case Abort(t) => MoveAccounts(w, t, Finished, vm);
    case Refused(t, state, message) =>
        MoveAccounts(w, t, Persisting(Result(state, message, None, ""), w.clock, 0, None), vm);
    case LookPersist(t) => MoveAccounts(w, t, w.workers[t].stage.(look := Some(w.stored)), vm);
    case _ => ClaimAccounts(w, a, vm);
  }

  /**
   * In every reachable state the set of VMs left behind changes by the mishaps and the recoveries, and by
   * nothing else.
   */
  lemma LeftBehindByMishap(w: World, a: Action, vm: string)
    requires Inv(w) && Enabled(w, a)
    ensures LeftBehind(Step(w, a), vm) <==> (LeftBehind(w, vm) && !Recovery(w, a, vm)) || Mishap(w, a, vm)
  {
    match a
    case Obtain(t, ref, secret) => ObtainAccounts(w, t, ref, secret, vm);
    case Torn(t, name, attached) => TornAccounts(w, t, name, attached, vm);
    case Misplaced(_, _, _, _, _) => MisplacedAccounts(w, a, vm);
    case HandBack(t, released) => HandBackAccounts(w, t, released, vm);
    case WritePersist(t, luck) => PersistAccounts(w, t, luck, vm);
    case ReleaseVm(_) => PoolStepAccounts(w, a, vm);
    case RemoveVm(_, _) => PoolStepAccounts(w, a, vm);
    case Rewrite(next) => assert WithAWorker(Step(w, a), vm) <==> WithAWorker(w, vm);
    case Submit(_, _) => TaskAccounts(w, a, vm);
    case Finish(_) => TaskAccounts(w, a, vm);
    case _ => QuietAccounts(w, a, vm);
  }
}
