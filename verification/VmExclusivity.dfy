/** When a worker holds the very VM that the object shows for its binding, and what handing a VM back then touches. */
module VmExclusivity {
  import opened Prelude
  import opened Sessions
  import opened VmAssignment
  import opened VmPool
  import opened VmProtocol
  import opened VmInvariants
  import opened VmGuarantees
  import opened VmPlaces
  import S = Serialisability

  // ---- held and shown at once ----

  /** Worker `t` holds a VM that the object names for its binding. */
  predicate Doubled(w: World, t: nat) {
    t in w.workers && Holds(w.workers[t]) && Names(w.stored, w.workers[t].binding, HeldVm(w.workers[t]))
  }

  /**
   * The worker is given a VM that the object names already, its binding's desk as a rule; or another writer
   * names the one it holds.
   */
  predicate Doubles(w: World, a: Action, t: nat) {
    match a
    case Obtain(u, ref, _) => u == t && t in w.workers && Names(w.stored, w.workers[t].binding, ref.name)
    case Rewrite(next) => t in w.workers && Holds(w.workers[t])
        && Names(next, w.workers[t].binding, HeldVm(w.workers[t]))
    case _ => false
  }

  /** The worker lets go of the VM, or another writer takes it off the object. */
  ghost predicate Parts(w: World, a: Action, t: nat)
    requires Enabled(w, a)
  {
    match a
    case WritePersist(u, luck) => u == t && (PersistFails(w, t, luck) || TrueUnwritten(w, t))
    case HandBack(u, _) => u == t
    case Rewrite(next) => t in w.workers && Holds(w.workers[t])
        && !Names(next, w.workers[t].binding, HeldVm(w.workers[t]))
    case _ => false
  }

  /** A persist call lands only on a binding without a VM, so nothing is doubled before or after. */
  lemma LandedIsSingle(w: World, t: nat, luck: S.Luck, u: nat)
    requires Inv(w) && Enabled(w, WritePersist(t, luck)) && PersistLands(w, t, luck)
    ensures !Doubled(w, u) && !Doubled(PersistWrite(w, t, luck), u)
  {
    assert SnapshotOk(w.stored, w.revision, w.log, w.workers[t].stage.look.value);
    LandedPersist(w, t, luck);
    CurrentLease(w);
  }

  lemma PersistDoubles(w: World, t: nat, luck: S.Luck, u: nat)
    requires Inv(w) && Enabled(w, WritePersist(t, luck))
    ensures Doubled(PersistWrite(w, t, luck), u) <==> Doubled(w, u) && !Parts(w, WritePersist(t, luck), u)
  {
    if PersistLands(w, t, luck) {
      LandedIsSingle(w, t, luck, u);
    } else {
      MissedPersist(w, t, luck);
    }
  }

  /**
   * A step of a worker other than a persist write: it leaves the object alone, and only what that worker holds
   * may change.
   */
  lemma WorkerDoubles(w: World, a: Action, t: nat)
    requires Inv(w) && Enabled(w, a)
    requires a.Admit? || a.ReadPlacement? || a.Abort? || a.Obtain? || a.Torn? || a.Misplaced? || a.Refused?
             || a.LookPersist? || a.HandBack?
    ensures Doubled(Step(w, a), t) <==> (Doubled(w, t) && !Parts(w, a, t)) || Doubles(w, a, t)
  {
  }

  lemma OtherDoubles(w: World, a: Action, t: nat)
    requires Inv(w) && Enabled(w, a)
    requires a.Tick? || a.Rewrite? || a.BeginClaim? || a.LookClaim? || a.WriteClaim? || a.Submit? || a.Abandon?
             || a.Finish? || a.ReleaseVm? || a.RemoveVm?
    ensures Doubled(Step(w, a), t) <==> (Doubled(w, t) && !Parts(w, a, t)) || Doubles(w, a, t)
  {
    if a.WriteClaim? {
      ClaimKeepsVm(w, a.claim, a.luck);
    }
  }

  /**
   * In every reachable state, holding what the object shows begins and ends with the listed steps and with
   * nothing else.
   */
  lemma DoubledByStep(w: World, a: Action, t: nat)
    requires Inv(w) && Enabled(w, a)
    ensures Doubled(Step(w, a), t) <==> (Doubled(w, t) && !Parts(w, a, t)) || Doubles(w, a, t)
  {
    match a
    case WritePersist(u, luck) => PersistDoubles(w, u, luck, t);
    case Tick(_) => OtherDoubles(w, a, t);
    case Rewrite(_) => OtherDoubles(w, a, t);
    case BeginClaim(_, _, _, _) => OtherDoubles(w, a, t);
    case LookClaim(_) => OtherDoubles(w, a, t);
    case WriteClaim(_, _) => OtherDoubles(w, a, t);
    case Submit(_, _) => OtherDoubles(w, a, t);
    case Abandon(_) => OtherDoubles(w, a, t);
    case Finish(_) => OtherDoubles(w, a, t);
    case ReleaseVm(_) => OtherDoubles(w, a, t);
    case RemoveVm(_, _) => OtherDoubles(w, a, t);
    case _ => WorkerDoubles(w, a, t);
  }

  // ---- what a worker hands back ----

  /** The persist call answered false, or is about to: what it read shows no VM on the binding. */
  predicate ToldNo(worker: Worker) {
    || worker.stage.Returning?
    || (worker.stage.Persisting? && Holds(worker) && worker.stage.look.Some?
        && !PersistAnswer(worker.stage.look.value, worker.binding, worker.attempt, ASSIGNED))
  }

  /** Worker `t` is going to hand back a VM, and the object names it for its binding. */
  predicate ShownAgain(w: World, t: nat) {
    t in w.workers && ToldNo(w.workers[t]) && Names(w.stored, w.workers[t].binding, HeldVm(w.workers[t]))
  }

  /** Another writer puts the VM on the object after the worker looked. */
  predicate ShowsAgain(w: World, a: Action, t: nat) {
    a.Rewrite? && t in w.workers && ToldNo(w.workers[t]) && Names(a.next, w.workers[t].binding, HeldVm(w.workers[t]))
  }

  /** The VM is handed back, its persist call raises or looks again, or another writer takes it off once more. */
  predicate Resolves(w: World, a: Action, t: nat) {
    match a
    case HandBack(u, _) => u == t
    case WritePersist(u, _) =>
      u == t && t in w.workers && w.workers[t].stage.Persisting? && w.workers[t].stage.look.Some?
      && !PersistDecided(w.workers[t].stage.look.value, w.workers[t].binding, w.workers[t].attempt,
          w.workers[t].stage.result, w.workers[t].stage.observedAt).ReturnCurrent?
    case Rewrite(next) => t in w.workers && ToldNo(w.workers[t])
        && !Names(next, w.workers[t].binding, HeldVm(w.workers[t]))
    case _ => false
  }

  /** What the worker reads when it looks is answered true wherever the object names a VM. */
  lemma LookAnswers(w: World, t: nat)
    requires Inv(w) && Enabled(w, LookPersist(t)) && Holds(w.workers[t])
    requires Names(w.stored, w.workers[t].binding, HeldVm(w.workers[t]))
    ensures PersistAnswer(w.stored, w.workers[t].binding, w.workers[t].attempt, ASSIGNED)
  {
    CurrentLease(w);
  }

  /**
   * A persist write over a version without a VM: a false answer keeps the VM for handing back, anything else
   * ends that.
   */
  lemma PersistShows(w: World, t: nat, luck: S.Luck, u: nat)
    requires Inv(w) && Enabled(w, WritePersist(t, luck))
    ensures ShownAgain(PersistWrite(w, t, luck), u) <==> ShownAgain(w, u) && !Resolves(w, WritePersist(t, luck), u)
  {
    var w' := PersistWrite(w, t, luck);
    if PersistLands(w, t, luck) {
      LandedIsSingle(w, t, luck, u);
    } else {
      MissedShows(w, t, luck);
    }
  }

  lemma MissedShows(w: World, t: nat, luck: S.Luck)
    requires t in w.workers && w.workers[t].stage.Persisting? && w.workers[t].stage.look.Some?
    requires !PersistLands(w, t, luck)
    ensures PersistWrite(w, t, luck).stored == w.stored
    ensures var worker := w.workers[t]; var worker' := PersistWrite(w, t, luck).workers[t];
            ToldNo(worker') <==>
            ToldNo(worker) && PersistDecided(worker.stage.look.value, worker.binding, worker.attempt,
                worker.stage.result, worker.stage.observedAt).ReturnCurrent?
  {
  }

  lemma WorkerShows(w: World, a: Action, t: nat)
    requires Inv(w) && Enabled(w, a)
    requires a.Admit? || a.ReadPlacement? || a.Abort? || a.Obtain? || a.Torn? || a.Misplaced? || a.Refused?
             || a.LookPersist? || a.HandBack?
    ensures ShownAgain(Step(w, a), t) <==> ShownAgain(w, t) && !Resolves(w, a, t)
  {
    if a.LookPersist? && a.task == t && Holds(w.workers[t])
        && Names(w.stored, w.workers[t].binding, HeldVm(w.workers[t])) {
      LookAnswers(w, t);
    }
  }

  lemma OtherShows(w: World, a: Action, t: nat)
    requires Inv(w) && Enabled(w, a)
    requires a.Tick? || a.Rewrite? || a.BeginClaim? || a.LookClaim? || a.WriteClaim? || a.Submit? || a.Abandon?
             || a.Finish? || a.ReleaseVm? || a.RemoveVm?
    ensures ShownAgain(Step(w, a), t) <==> (ShownAgain(w, t) && !Resolves(w, a, t)) || ShowsAgain(w, a, t)
  {
    if a.WriteClaim? {
      ClaimKeepsVm(w, a.claim, a.luck);
    }
  }

  /**
   * In every reachable state, the object comes to name a VM that is to be handed back only by another writer's
   * hand.
   */
  lemma ShownAgainByStep(w: World, a: Action, t: nat)
    requires Inv(w) && Enabled(w, a)
    ensures ShownAgain(Step(w, a), t) <==> (ShownAgain(w, t) && !Resolves(w, a, t)) || ShowsAgain(w, a, t)
  {
    match a
    case WritePersist(u, luck) => PersistShows(w, u, luck, t);
    case Tick(_) => OtherShows(w, a, t);
    case Rewrite(_) => OtherShows(w, a, t);
    case BeginClaim(_, _, _, _) => OtherShows(w, a, t);
    case LookClaim(_) => OtherShows(w, a, t);
    case WriteClaim(_, _) => OtherShows(w, a, t);
    case Submit(_, _) => OtherShows(w, a, t);
    case Abandon(_) => OtherShows(w, a, t);
    case Finish(_) => OtherShows(w, a, t);
    case ReleaseVm(_) => OtherShows(w, a, t);
    case RemoveVm(_, _) => OtherShows(w, a, t);
    case _ => WorkerShows(w, a, t);
  }

  /** A hand-back puts a VM into release that the object shows exactly if it was shown again; it touches no other VM. */
  lemma HandBackReleases(w: World, t: nat, vm: string)
    requires Inv(w) && Enabled(w, HandBack(t, true)) && IsAssigned(w.pool, vm)
    ensures IsAssigned(Step(w, HandBack(t, true)).pool, vm) <==> !HasIt(w.workers[t], w.pool.labels, vm)
    ensures !IsAssigned(Step(w, HandBack(t, true)).pool, vm) ==> (StoredIn(w.pool, w.stored, vm) <==> ShownAgain(w, t))
  {
  }

  /**
   * The other way to hand back is a rejection: the VM given elsewhere goes into release at once. It is the
   * object's VM exactly if the object names it for the worker's binding; no other VM is touched.
   */
  lemma RejectionReleases(w: World, t: nat, name: string, zone: string, message: string, vm: string)
    requires Inv(w) && Enabled(w, Misplaced(t, name, zone, message, true))
    ensures var w' := Step(w, Misplaced(t, name, zone, message, true));
            && !IsAssigned(w'.pool, name) && (vm != name ==> (IsAssigned(w'.pool, vm) <==> IsAssigned(w.pool, vm)))
            && (StoredIn(w'.pool, w'.stored, name) <==> Names(w.stored, w.workers[t].binding, name))
  {
    RejectedKeeps(w.pool, w.workers[t].binding, zone, name, true);
  }
}
