/** What every step of the VM-assignment protocol keeps. */
module VmInvariants {
  import opened Prelude
  import opened Sessions
  import opened StatusPatch
  import opened StatusWriter
  import S = Serialisability
  import opened VmAssignment
  import opened VmPool
  import opened VmProtocol
  import L = VmLease

  // ---- the parts of the invariant, each over the fields it speaks of ----

  ghost predicate WasClaimed(log: seq<L.Event>, b: string, attempt: string) {
    exists i :: 0 <= i < |log| && log[i].Claimed? && log[i].binding == b && log[i].attempt == attempt
  }

  /** A version some call holds: no newer than the object, equal to it when the versions are equal. */
  ghost predicate SnapshotOk(stored: Option<Session>, revision: nat, log: seq<L.Event>, snapshot: Option<Session>) {
    snapshot.Some? ==>
      && snapshot.value.resourceVersion <= revision
      && (Matches(stored, snapshot) ==> stored == snapshot)
      && (forall a :: HeldBy(snapshot.value.status.binding, a) ==> WasClaimed(log, snapshot.value.status.binding.id, a))
  }

  ghost predicate SnapshotsOk(stored: Option<Session>, revision: nat, log: seq<L.Event>, claims: map<nat, Claim>,
      workers: map<nat, Worker>) {
    && (stored.Some? ==> stored.value.resourceVersion <= revision)
    && (forall c :: c in claims && claims[c].stage.Looking? ==>
        SnapshotOk(stored, revision, log, claims[c].stage.snapshot))
    && (forall t :: t in workers && workers[t].stage.Persisting? && workers[t].stage.look.Some? ==>
          SnapshotOk(stored, revision, log, workers[t].stage.look.value))
  }

  /** The object shows, of its current binding, exactly the lease the log says it has. */
  ghost predicate Agreement(stored: Option<Session>, log: seq<L.Event>, bindings: set<string>) {
    && "" !in bindings
    && (forall i :: 0 <= i < |log| ==> log[i].binding in bindings)
    && (stored.Some? ==>
          var binding := stored.value.status.binding;
          if binding.id == "" then LeaseShown(binding) == Some(L.Free)
          else binding.id in bindings && LeaseShown(binding) == Some(L.LeaseOf(log, binding.id)))
  }

  ghost predicate LogOk(log: seq<L.Event>, clock: Time, attempts: set<string>, submitted: set<string>) {
    && L.Legal(log) && L.Chronological(log)
    && (forall i :: 0 <= i < |log| ==> log[i].at <= clock)
    && (forall i :: 0 <= i < |log| && log[i].Claimed? ==> log[i].attempt in attempts)
    && (forall i :: 0 <= i < |log| && L.IsOutcome(log[i]) ==> log[i].attempt in submitted)
  }

  ghost predicate ClaimsOk(claims: map<nat, Claim>, log: seq<L.Event>, clock: Time, bindings: set<string>,
      attempts: set<string>, submitted: set<string>, declined: set<string>) {
    && submitted <= attempts && declined <= attempts
    && (forall a :: a in declined ==> L.NeverClaimed(log, a))
    && (forall c, d :: c in claims && d in claims && c != d ==> claims[c].attempt != claims[d].attempt)
    && (forall c :: c in claims ==>
          && claims[c].binding in bindings && claims[c].attempt in attempts
          && claims[c].attempt !in submitted && claims[c].attempt !in declined
          && claims[c].observedAt <= clock
          && (claims[c].stage.Won? ==> WasClaimed(log, claims[c].binding, claims[c].attempt))
          && (!claims[c].stage.Won? ==> L.NeverClaimed(log, claims[c].attempt)))
  }

  /** The runtime's key set is exactly the keys of its accepted, unfinished tasks, one task a key. */
  ghost predicate WorkersOk(workers: map<nat, Worker>, inflight: set<string>, bindings: set<string>,
      submitted: set<string>, clock: Time) {
    && (forall t :: t in workers ==>
          && workers[t].binding in inflight && workers[t].binding in bindings && workers[t].attempt in submitted
          && (workers[t].stage.Persisting? ==>
                && workers[t].stage.result.state != IN_PROGRESS
                && workers[t].stage.observedAt <= clock
                && (workers[t].stage.result.state == ASSIGNED ==> HasVm(workers[t].stage.result))))
    && (forall t, u :: t in workers && u in workers && t != u ==> workers[t].binding != workers[u].binding)
    && (forall b :: b in inflight ==> exists t :: t in workers && workers[t].binding == b)
  }

  /** Every VM that a label, a worker or a binding's lease names was claimed for that binding by the pool. */
  ghost predicate GivenOk(labels: map<string, Label>, workers: map<nat, Worker>, log: seq<L.Event>,
      given: set<(string, string)>) {
    && (forall vm :: vm in labels ==> (vm, labels[vm].binding) in given)
    && (forall t :: t in workers && Holds(workers[t]) ==> (HeldVm(workers[t]), workers[t].binding) in given)
    && (forall i :: 0 <= i < |log| && L.After(log[i]).Owned? ==> (L.After(log[i]).vm, log[i].binding) in given)
  }

  /** A worker's VM, while it still carries the binding's label, holds the assistant's disk. */
  ghost predicate HeldOk(pool: Pool, workers: map<nat, Worker>) {
    forall t :: t in workers && Holds(workers[t]) && IsAssignedTo(pool, HeldVm(workers[t]), workers[t].binding) ==>
      pool.labels[HeldVm(workers[t])].attached
  }

  ghost predicate Inv(w: World) {
    && SnapshotsOk(w.stored, w.revision, w.log, w.claims, w.workers)
    && Agreement(w.stored, w.log, w.bindings)
    && LogOk(w.log, w.clock, w.attempts, w.submitted)
    && ClaimsOk(w.claims, w.log, w.clock, w.bindings, w.attempts, w.submitted, w.declined)
    && WorkersOk(w.workers, w.inflight, w.bindings, w.submitted, w.clock)
    && GivenOk(w.pool.labels, w.workers, w.log, w.given)
    && PoolOk(w.pool)
    && HeldOk(w.pool, w.workers)
  }

  // ---- a commit ----

  lemma ClaimsStay(log: seq<L.Event>, e: L.Event)
    ensures forall b, a :: WasClaimed(log, b, a) ==> WasClaimed(log + [e], b, a)
    ensures e.Claimed? ==> WasClaimed(log + [e], e.binding, e.attempt)
  {
    forall b, a | WasClaimed(log, b, a) ensures WasClaimed(log + [e], b, a) {
      var i :| 0 <= i < |log| && log[i].Claimed? && log[i].binding == b && log[i].attempt == a;
      assert (log + [e])[i] == log[i];
    }
    assert (log + [e])[|log|] == e;
  }

  lemma LogGrows(log: seq<L.Event>, e: L.Event, clock: Time, attempts: set<string>, submitted: set<string>)
    requires LogOk(log, clock, attempts, submitted) && L.Allowed(log, e) && e.at == clock
    requires e.Claimed? ==> e.attempt in attempts
    requires L.IsOutcome(e) ==> e.attempt in submitted
    ensures LogOk(log + [e], clock, attempts, submitted)
  {
    L.LegalAppend(log, e);
  }

  /** A write makes every version held by a call outdated, and unsays no claim and no assignment. */
  lemma SnapshotOutdated(stored: Option<Session>, revision: nat, log: seq<L.Event>, stored': Option<Session>,
      log': seq<L.Event>, snapshot: Option<Session>)
    requires SnapshotOk(stored, revision, log, snapshot)
    requires stored'.Some? ==> stored'.value.resourceVersion == revision + 1
    requires log' == log || (|log'| == |log| + 1 && log' == log + [log'[|log|]] && L.Allowed(log, log'[|log|]))
    ensures SnapshotOk(stored', revision + 1, log', snapshot)
  {
    if snapshot.Some? && log' != log {
      ClaimsStay(log, log'[|log|]);
    }
  }

  lemma SnapshotsOutdated(w: World, stored': Option<Session>, log': seq<L.Event>)
    requires SnapshotsOk(w.stored, w.revision, w.log, w.claims, w.workers)
    requires stored'.Some? ==> stored'.value.resourceVersion == w.revision + 1
    requires log' == w.log || (|log'| == |w.log| + 1 && log' == w.log
             + [log'[|w.log|]] && L.Allowed(w.log, log'[|w.log|]))
    ensures SnapshotsOk(stored', w.revision + 1, log', w.claims, w.workers)
  {
    forall c | c in w.claims && w.claims[c].stage.Looking?
      ensures SnapshotOk(stored', w.revision + 1, log', w.claims[c].stage.snapshot) {
      SnapshotOutdated(w.stored, w.revision, w.log, stored', log', w.claims[c].stage.snapshot);
    }
    forall t | t in w.workers && w.workers[t].stage.Persisting? && w.workers[t].stage.look.Some?
      ensures SnapshotOk(stored', w.revision + 1, log', w.workers[t].stage.look.value)
    {
      SnapshotOutdated(w.stored, w.revision, w.log, stored', log', w.workers[t].stage.look.value);
    }
  }

  /** The lease the log ascribes to the current binding, read off the object. */
  lemma CurrentLease(w: World)
    requires Agreement(w.stored, w.log, w.bindings) && w.stored.Some? && CurrentBinding(w).id != ""
    ensures CurrentBinding(w).id in w.bindings
    ensures LeaseShown(CurrentBinding(w)) == Some(L.LeaseOf(w.log, CurrentBinding(w).id))
  {
  }

  // ---- claims ----

  function ClaimEvent(w: World, claim: Claim): L.Event
    requires w.stored.Some?
  {
    L.Claimed(claim.binding, claim.attempt, claim.observedAt, claim.staleAfter, w.clock, w.stored.value)
  }

  /** A claim that may be written over the stored version is an event the log allows. */
  lemma ClaimAllowed(w: World, claim: Claim)
    requires Agreement(w.stored, w.log, w.bindings) && w.stored.Some? && claim.binding != ""
    requires Live(w.stored.value, claim.binding) && Claimable(CurrentBinding(w), claim.staleAfter, w.clock)
    requires L.NeverClaimed(w.log, claim.attempt) && claim.observedAt <= w.clock
    ensures L.Allowed(w.log, ClaimEvent(w, claim))
  {
  }

  /** The object and the log after a claim landed. */
  lemma ClaimLands(w: World, claim: Claim)
    requires SnapshotsOk(w.stored, w.revision, w.log, w.claims, w.workers) && Agreement(w.stored, w.log, w.bindings)
    requires LogOk(w.log, w.clock, w.attempts, w.submitted)
    requires w.stored.Some? && claim.binding in w.bindings && claim.attempt in w.attempts
    requires Live(w.stored.value, claim.binding) && Claimable(CurrentBinding(w), claim.staleAfter, w.clock)
    requires L.NeverClaimed(w.log, claim.attempt) && claim.observedAt <= w.clock
    ensures var w' := Overwrite(w, WithBinding(w.stored.value,
            ClaimedBinding(CurrentBinding(w), claim.attempt, claim.observedAt)), ClaimEvent(w, claim));
            && SnapshotsOk(w'.stored, w'.revision, w'.log, w'.claims, w'.workers)
                && Agreement(w'.stored, w'.log, w'.bindings)
            && LogOk(w'.log, w'.clock, w'.attempts, w'.submitted)
  {
    var e := ClaimEvent(w, claim);
    var w' := Overwrite(w, WithBinding(w.stored.value,
        ClaimedBinding(CurrentBinding(w), claim.attempt, claim.observedAt)), e);
    ClaimAllowed(w, claim);
    LogGrows(w.log, e, w.clock, w.attempts, w.submitted);
    SnapshotsOutdated(w, w'.stored, w'.log);
    L.LeaseAppend(w.log, e, claim.binding);
  }

  /** Only its own claim event ends an attempt's "never claimed". */
  lemma NeverClaimedStays(log: seq<L.Event>, e: L.Event, attempt: string)
    requires L.NeverClaimed(log, attempt) && !(e.Claimed? && e.attempt == attempt)
    ensures L.NeverClaimed(log + [e], attempt)
  {
  }

  /** The bookkeeping of the claim calls after any event; a claim event is that of call `c`. */
  lemma ClaimsAfter(w: World, e: L.Event, c: nat, stage: ClaimStage)
    requires ClaimsOk(w.claims, w.log, w.clock, w.bindings, w.attempts, w.submitted, w.declined)
    requires e.Claimed? && c in w.claims && !w.claims[c].stage.Won? && stage == Won
    requires w.claims[c].attempt == e.attempt && w.claims[c].binding == e.binding
    ensures ClaimsOk(w.claims[c := w.claims[c].(stage := stage)], w.log + [e], w.clock, w.bindings, w.attempts,
            w.submitted, w.declined)
    ensures ClaimsOk(w.claims - {c}, w.log + [e], w.clock, w.bindings, w.attempts, w.submitted, w.declined)
  {
    ClaimsStay(w.log, e);
    forall d | d in w.claims && d != c && !w.claims[d].stage.Won?
      ensures L.NeverClaimed(w.log + [e], w.claims[d].attempt) {
      NeverClaimedStays(w.log, e, w.claims[d].attempt);
    }
    forall a | a in w.declined ensures L.NeverClaimed(w.log + [e], a) {
      NeverClaimedStays(w.log, e, a);
    }
  }

  lemma ClaimsUnmoved(w: World, e: L.Event)
    requires ClaimsOk(w.claims, w.log, w.clock, w.bindings, w.attempts, w.submitted, w.declined)
    requires !e.Claimed?
    ensures ClaimsOk(w.claims, w.log + [e], w.clock, w.bindings, w.attempts, w.submitted, w.declined)
  {
    ClaimsStay(w.log, e);
    forall d | d in w.claims && !w.claims[d].stage.Won? ensures L.NeverClaimed(w.log + [e], w.claims[d].attempt) {
      NeverClaimedStays(w.log, e, w.claims[d].attempt);
    }
    forall a | a in w.declined ensures L.NeverClaimed(w.log + [e], a) {
      NeverClaimedStays(w.log, e, a);
    }
  }

  /** No version read shows the id of a claim that was not written. */
  lemma NoAnswerWithoutClaim(w: World, c: nat)
    requires Inv(w) && c in w.claims && w.claims[c].stage.Looking?
    ensures ClaimAnswer(w.claims[c].stage.snapshot, w.claims[c].binding, w.claims[c].attempt) == None
  {
  }

  lemma UnclaimedIsNotHeld(w: World, snapshot: Option<Session>, attempt: string)
    requires SnapshotOk(w.stored, w.revision, w.log, snapshot) && L.NeverClaimed(w.log, attempt)
    ensures !HeldBy(OrEmpty(snapshot).status.binding, attempt)
  {
  }

  /** Whatever a call reads is a version it may hold. */
  lemma ReadOk(w: World)
    requires Inv(w)
    ensures SnapshotOk(w.stored, w.revision, w.log, w.stored)
  {
    if w.stored.Some? && CurrentBinding(w).vmAssignment.Some?
        && CurrentBinding(w).vmAssignment.value.state == IN_PROGRESS {
      var b := CurrentBinding(w).id;
      assert w.log[..|w.log|] == w.log;
      var k := L.ClaimBehind(w.log, b, |w.log|);
      assert WasClaimed(w.log, b, w.log[k].attempt);
    }
  }

  lemma EndClaimKeeps(w: World, c: nat)
    requires Inv(w)
    ensures Inv(EndClaim(w, c))
  {
  }

  lemma AskAgainKeeps(w: World, c: nat, tries: nat)
    requires Inv(w) && c in w.claims && !w.claims[c].stage.Won?
    ensures Inv(SetClaim(w, c, tries, Asking))
  {
  }

  lemma LookClaimKeeps(w: World, c: nat)
    requires Inv(w) && c in w.claims && !w.claims[c].stage.Won?
    ensures Inv(SetClaim(w, c, w.claims[c].tries, Looking(w.stored)))
  {
    ReadOk(w);
  }

  lemma DeclineKeeps(w: World, c: nat)
    requires Inv(w) && c in w.claims && !w.claims[c].stage.Won?
    ensures Inv(EndClaim(w, c).(declined := w.declined + {w.claims[c].attempt}))
  {
  }

  /** A claim that landed, answered or not. */
  lemma ClaimLandedKeeps(w: World, c: nat)
    requires Inv(w) && c in w.claims && !w.claims[c].stage.Won? && w.stored.Some?
    requires Live(w.stored.value, w.claims[c].binding) && Claimable(CurrentBinding(w), w.claims[c].staleAfter, w.clock)
    ensures var claim := w.claims[c];
            var w' := Overwrite(w, WithBinding(w.stored.value,
                ClaimedBinding(CurrentBinding(w), claim.attempt, claim.observedAt)), ClaimEvent(w, claim));
            Inv(SetClaim(w', c, claim.tries, Won)) && Inv(EndClaim(w', c))
  {
    ClaimLands(w, w.claims[c]);
    ClaimsAfter(w, ClaimEvent(w, w.claims[c]), c, Won);
  }

  /** The object a landed claim is answered with makes its caller the owner of the lease. */
  lemma LandedClaimIsAnswered(w: World, claim: Claim)
    requires w.stored.Some? && Live(w.stored.value, claim.binding) && CurrentBinding(w).vmRef.None?
    ensures var w' := Overwrite(w, WithBinding(w.stored.value,
            ClaimedBinding(CurrentBinding(w), claim.attempt, claim.observedAt)), ClaimEvent(w, claim));
            ClaimAnswer(w'.stored, claim.binding, claim.attempt) == Some(claim.attempt)
  {
  }

  lemma ClaimLandsKeeps(w: World, c: nat, next: Status, luck: S.Luck)
    requires Inv(w) && c in w.claims && w.claims[c].stage.Looking? && w.stored.Some?
    requires w.stored == w.claims[c].stage.snapshot
    requires !luck.RequestLost? && Live(w.stored.value, w.claims[c].binding)
    requires Claimable(CurrentBinding(w), w.claims[c].staleAfter, w.clock)
    requires next == WithBinding(w.stored.value,
             ClaimedBinding(CurrentBinding(w), w.claims[c].attempt, w.claims[c].observedAt))
    ensures Inv(ClaimReplace(w, c, next, luck))
  {
    var claim := w.claims[c];
    var w' := Overwrite(w, next, ClaimEvent(w, claim));
    ClaimLandedKeeps(w, c);
    LandedClaimIsAnswered(w, claim);
    assert ClaimReplace(w, c, next, luck) ==
        if luck.Delivered? then SetClaim(w', c, claim.tries, Won) else EndClaim(w', c);
  }

  /** A claim's replace that does not land ends the call, or sends it round the loop again. */
  lemma ClaimMisses(w: World, c: nat, next: Status, luck: S.Luck)
    requires c in w.claims && w.claims[c].stage.Looking?
    requires luck.RequestLost? || !Matches(w.stored, w.claims[c].stage.snapshot)
    ensures ClaimReplace(w, c, next, luck) == EndClaim(w, c)
            || ClaimReplace(w, c, next, luck) == SetClaim(w, c, w.claims[c].tries + 1, Asking)
  {
  }

  lemma ClaimMissesKeeps(w: World, c: nat, next: Status, luck: S.Luck)
    requires Inv(w) && c in w.claims && w.claims[c].stage.Looking?
    requires luck.RequestLost? || !Matches(w.stored, w.claims[c].stage.snapshot)
    ensures Inv(ClaimReplace(w, c, next, luck))
  {
    ClaimMisses(w, c, next, luck);
    EndClaimKeeps(w, c);
    AskAgainKeeps(w, c, w.claims[c].tries + 1);
  }

  lemma ClaimHitsKeeps(w: World, c: nat, next: Status, luck: S.Luck)
    requires Inv(w) && c in w.claims && w.claims[c].stage.Looking?
    requires !luck.RequestLost? && Matches(w.stored, w.claims[c].stage.snapshot)
    requires var claim := w.claims[c];
             ClaimDecided(claim.stage.snapshot, claim.binding, claim.attempt, claim.observedAt, claim.staleAfter,
                 w.clock) == Write(next)
    ensures Inv(ClaimReplace(w, c, next, luck))
  {
    assert SnapshotOk(w.stored, w.revision, w.log, w.claims[c].stage.snapshot);
    ClaimLandsKeeps(w, c, next, luck);
  }

  lemma WriteClaimKeeps(w: World, c: nat, luck: S.Luck)
    requires Inv(w) && c in w.claims && w.claims[c].stage.Looking?
    ensures Inv(ClaimWrite(w, c, luck))
  {
    var claim := w.claims[c];
    match ClaimDecided(claim.stage.snapshot, claim.binding, claim.attempt, claim.observedAt, claim.staleAfter,
        w.clock) {
      case ReturnCurrent =>
        NoAnswerWithoutClaim(w, c);
        DeclineKeeps(w, c);
      case Raise =>
        EndClaimKeeps(w, c);
      case Write(next) =>
        if luck.RequestLost? || !Matches(w.stored, claim.stage.snapshot) {
          ClaimMissesKeeps(w, c, next, luck);
        } else {
          ClaimHitsKeeps(w, c, next, luck);
        }
    }
  }

  // ---- workers ----

  /** A stage a worker may be in, whatever it did before. */
  ghost predicate StageOk(w: World, stage: WorkerStage) {
    stage.Persisting? ==>
      && stage.result.state != IN_PROGRESS && stage.observedAt <= w.clock
      && (stage.result.state == ASSIGNED ==> HasVm(stage.result))
      && (stage.look.Some? ==> SnapshotOk(w.stored, w.revision, w.log, stage.look.value))
  }

  /** A worker that moves on, with the VM it had or without one. */
  lemma MoveKeeps(w: World, t: nat, stage: WorkerStage)
    requires Inv(w) && t in w.workers && StageOk(w, stage)
    requires var moved := w.workers[t].(stage := stage);
             Holds(moved) ==>
               && (HeldVm(moved), moved.binding) in w.given
               && (IsAssignedTo(w.pool, HeldVm(moved), moved.binding) ==> w.pool.labels[HeldVm(moved)].attached)
    ensures Inv(SetWorker(w, t, stage))
  {
    SameKeys(w, SetWorker(w, t, stage), t);
  }

  lemma SameKeys(w: World, w': World, t: nat)
    requires WorkersOk(w.workers, w.inflight, w.bindings, w.submitted, w.clock)
    requires t in w.workers && w'.workers.Keys == w.workers.Keys && StageOk(w, w'.workers[t].stage)
    requires forall u :: u in w.workers ==>
             w'.workers[u] == w.workers[u].(stage := w'.workers[u].stage) && (u != t ==> w'.workers[u] == w.workers[u])
    ensures WorkersOk(w'.workers, w.inflight, w.bindings, w.submitted, w.clock)
  {
  }

  /** A change of the pool, every label of which is accounted for. */
  lemma PoolKeeps(w: World, pool: Pool, given: set<(string, string)>)
    requires Inv(w) && PoolOk(pool) && HeldOk(pool, w.workers) && w.given <= given
    requires forall vm :: vm in pool.labels ==> (vm, pool.labels[vm].binding) in given
    ensures Inv(w.(pool := pool, given := given))
  {
  }

  lemma ObtainKeeps(w: World, t: nat, vm: VmRef, secret: string)
    requires Inv(w) && Enabled(w, Obtain(t, vm, secret))
    ensures Inv(Step(w, Obtain(t, vm, secret)))
  {
    var b, zone := w.workers[t].binding, w.workers[t].stage.zone;
    GiveKeeps(w.pool, b, zone, vm.name);
    PoolKeeps(w, Give(w.pool, b, zone, vm.name), w.given + {(vm.name, b)});
    var w1 := w.(pool := Give(w.pool, b, zone, vm.name), given := w.given + {(vm.name, b)});
    MoveKeeps(w1, t, Persisting(Result(ASSIGNED, "", Some(vm), secret), w.clock, 0, None));
  }

  lemma MisplacedKeeps(w: World, t: nat, vm: string, zone: string, message: string, released: bool)
    requires Inv(w) && Enabled(w, Misplaced(t, vm, zone, message, released))
    ensures Inv(Step(w, Misplaced(t, vm, zone, message, released)))
  {
    var b := w.workers[t].binding;
    RejectedKeeps(w.pool, b, zone, vm, released);
    PoolKeeps(w, Rejected(w.pool, b, zone, vm, released), w.given + {(vm, b)});
    MoveKeeps(w.(pool := Rejected(w.pool, b, zone, vm, released), given := w.given + {(vm, b)}), t,
              Persisting(Result("capacity", message, None, ""), w.clock, 0, None));
  }

  lemma TornKeeps(w: World, t: nat, vm: string, attached: bool)
    requires Inv(w) && Enabled(w, Torn(t, vm, attached))
    ensures Inv(Step(w, Torn(t, vm, attached)))
  {
    var b, zone := w.workers[t].binding, w.workers[t].stage.zone;
    TearKeeps(w.pool, b, zone, vm, attached);
    PoolKeeps(w, Tear(w.pool, b, zone, vm, attached), w.given + {(vm, b)});
    MoveKeeps(w.(pool := Tear(w.pool, b, zone, vm, attached), given := w.given + {(vm, b)}), t,
        Persisting(ErrorResult(), w.clock, 0, None));
  }

  lemma HandBackKeeps(w: World, t: nat, released: bool)
    requires Inv(w) && Enabled(w, HandBack(t, released))
    ensures Inv(Step(w, HandBack(t, released)))
  {
    var b, vm := w.workers[t].binding, w.workers[t].stage.vm;
    var pool := if released then Release(w.pool, b, vm) else w.pool;
    ReleaseKeeps(w.pool, b, vm);
    PoolKeeps(w, pool, w.given);
    MoveKeeps(w.(pool := pool), t, Finished);
  }

  // ---- outcomes ----

  /** An outcome decided over the stored version is an event the log allows. */
  lemma OutcomeAllowed(w: World, worker: Worker)
    requires Agreement(w.stored, w.log, w.bindings) && w.stored.Some? && worker.binding != ""
    requires worker.stage.Persisting?
    requires Live(w.stored.value, worker.binding) && HeldBy(CurrentBinding(w), worker.attempt)
    ensures L.Allowed(w.log, OutcomeEvent(w, worker))
    ensures L.LeaseOf(w.log, worker.binding).Taken?
  {
  }

  /** The object and the log after an outcome landed. */
  lemma OutcomeLands(w: World, t: nat)
    requires Inv(w) && t in w.workers && w.workers[t].stage.Persisting? && w.stored.Some?
    requires Live(w.stored.value, w.workers[t].binding) && HeldBy(CurrentBinding(w), w.workers[t].attempt)
    ensures var worker := w.workers[t];
            var next := WithBinding(w.stored.value,
                PersistedBinding(CurrentBinding(w), worker.attempt, worker.stage.result, worker.stage.observedAt));
            Inv(Overwrite(w, next, OutcomeEvent(w, worker)))
  {
    var worker := w.workers[t];
    var e := OutcomeEvent(w, worker);
    var next := WithBinding(w.stored.value,
        PersistedBinding(CurrentBinding(w), worker.attempt, worker.stage.result, worker.stage.observedAt));
    var w' := Overwrite(w, next, e);
    OutcomeAllowed(w, worker);
    LogGrows(w.log, e, w.clock, w.attempts, w.submitted);
    SnapshotsOutdated(w, w'.stored, w'.log);
    L.LeaseAppend(w.log, e, worker.binding);
    ClaimsUnmoved(w, e);
  }

  lemma AnswerPersistKeeps(w: World, t: nat, answer: bool)
    requires Inv(w) && t in w.workers && w.workers[t].stage.Persisting?
    ensures Inv(AnswerPersist(w, t, answer))
  {
    MoveKeeps(w, t, if Holds(w.workers[t]) && !answer then Returning(HeldVm(w.workers[t])) else Finished);
  }

  lemma RaisePersistKeeps(w: World, t: nat)
    requires Inv(w) && t in w.workers && w.workers[t].stage.Persisting?
    ensures Inv(RaisePersist(w, t))
  {
    MoveKeeps(w, t, if Holds(w.workers[t]) then Persisting(ErrorResult(), w.clock, 0, None) else Finished);
  }

  /** An outcome written over the version read, that version being the one still stored. */
  lemma PersistLandsKeeps(w: World, t: nat, next: Status, luck: S.Luck)
    requires Inv(w) && t in w.workers && w.workers[t].stage.Persisting? && w.workers[t].stage.look.Some?
    requires w.stored.Some? && !luck.RequestLost? && w.stored == w.workers[t].stage.look.value
    requires Live(w.stored.value, w.workers[t].binding) && HeldBy(CurrentBinding(w), w.workers[t].attempt)
    requires next == WithBinding(w.stored.value,
             PersistedBinding(CurrentBinding(w), w.workers[t].attempt, w.workers[t].stage.result,
                 w.workers[t].stage.observedAt))
    ensures Inv(PersistReplace(w, t, next, luck))
  {
    OutcomeLands(w, t);
    var worker := w.workers[t];
    var w' := Overwrite(w, next, OutcomeEvent(w, worker));
    if luck.Delivered? {
      AnswerPersistKeeps(w', t, PersistAnswer(w'.stored, worker.binding, worker.attempt, worker.stage.result.state));
    } else {
      RaisePersistKeeps(w', t);
    }
  }

  lemma PersistMissesKeeps(w: World, t: nat, next: Status, luck: S.Luck)
    requires Inv(w) && t in w.workers && w.workers[t].stage.Persisting? && w.workers[t].stage.look.Some?
    requires luck.RequestLost? || !Matches(w.stored, w.workers[t].stage.look.value)
    ensures Inv(PersistReplace(w, t, next, luck))
  {
    var stage := w.workers[t].stage;
    if luck.RequestLost? || w.stored.None? || stage.look.value.None? || stage.tries + 1 >= MAX_CAS_RETRIES {
      assert PersistReplace(w, t, next, luck) == RaisePersist(w, t);
      RaisePersistKeeps(w, t);
    } else {
      var again := stage.(tries := stage.tries + 1, look := None);
      assert PersistReplace(w, t, next, luck) == SetWorker(w, t, again);
      MoveKeeps(w, t, again);
    }
  }

  lemma PersistReplaceKeeps(w: World, t: nat, next: Status, luck: S.Luck)
    requires Inv(w) && t in w.workers && w.workers[t].stage.Persisting? && w.workers[t].stage.look.Some?
    requires var worker := w.workers[t];
             PersistDecided(worker.stage.look.value, worker.binding, worker.attempt, worker.stage.result,
                 worker.stage.observedAt) == Write(next)
    ensures Inv(PersistReplace(w, t, next, luck))
  {
    var snapshot := w.workers[t].stage.look.value;
    if !luck.RequestLost? && Matches(w.stored, snapshot) {
      assert SnapshotOk(w.stored, w.revision, w.log, snapshot);
      PersistLandsKeeps(w, t, next, luck);
    } else {
      PersistMissesKeeps(w, t, next, luck);
    }
  }

  lemma WritePersistKeeps(w: World, t: nat, luck: S.Luck)
    requires Inv(w) && t in w.workers && w.workers[t].stage.Persisting? && w.workers[t].stage.look.Some?
    ensures Inv(PersistWrite(w, t, luck))
  {
    var worker := w.workers[t];
    var snapshot := worker.stage.look.value;
    match PersistDecided(snapshot, worker.binding, worker.attempt, worker.stage.result, worker.stage.observedAt) {
      case ReturnCurrent =>
        AnswerPersistKeeps(w, t, PersistAnswer(snapshot, worker.binding, worker.attempt, worker.stage.result.state));
      case Raise =>
        RaisePersistKeeps(w, t);
      case Write(next) =>
        PersistReplaceKeeps(w, t, next, luck);
    }
  }

  // ---- the runtime, the reconciler and the other writers ----

  /** A task accepted: its key joins the set, and it holds no VM yet. */
  lemma AcceptKeeps(w: World, t: nat, b: string, attempt: string)
    requires WorkersOk(w.workers, w.inflight, w.bindings, w.submitted, w.clock)
    requires GivenOk(w.pool.labels, w.workers, w.log, w.given)
    requires t !in w.workers && b in w.bindings && b !in w.inflight
    ensures WorkersOk(w.workers[t := Worker(b, attempt, Queued)], w.inflight + {b}, w.bindings, w.submitted + {attempt},
            w.clock)
    ensures GivenOk(w.pool.labels, w.workers[t := Worker(b, attempt, Queued)], w.log, w.given)
  {
    var workers' := w.workers[t := Worker(b, attempt, Queued)];
    assert forall u :: u in w.workers ==> u in workers' && workers'[u] == w.workers[u];
    assert t in workers' && workers'[t].binding == b;
  }

  /** A won id leaves its claim call for the runtime. */
  lemma HandOverKeeps(w: World, c: nat)
    requires Inv(w) && c in w.claims && w.claims[c].stage.Won?
    ensures Inv(EndClaim(w, c).(submitted := w.submitted + {w.claims[c].attempt}))
  {
  }

  lemma EnqueueKeeps(w: World, t: nat, b: string, attempt: string)
    requires Inv(w) && t !in w.workers && b in w.bindings && b !in w.inflight && attempt in w.submitted
    ensures Inv(w.(inflight := w.inflight + {b}, workers := w.workers[t := Worker(b, attempt, Queued)]))
  {
    AcceptKeeps(w, t, b, attempt);
    assert w.submitted + {attempt} == w.submitted;
  }

  lemma SubmitKeeps(w: World, c: nat, t: nat)
    requires Inv(w) && Enabled(w, Submit(c, t))
    ensures Inv(Step(w, Submit(c, t)))
  {
    HandOverKeeps(w, c);
    var w1 := EndClaim(w, c).(submitted := w.submitted + {w.claims[c].attempt});
    if w.claims[c].binding !in w.inflight {
      EnqueueKeeps(w1, t, w.claims[c].binding, w.claims[c].attempt);
    }
  }

  lemma FinishKeeps(w: World, t: nat)
    requires Inv(w) && Enabled(w, Finish(t))
    ensures Inv(Step(w, Finish(t)))
  {
    var w' := Step(w, Finish(t));
    forall b | b in w'.inflight ensures exists u :: u in w'.workers && w'.workers[u].binding == b {
      var u :| u in w.workers && w.workers[u].binding == b;
      assert u in w'.workers;
    }
  }

  lemma RewriteKeeps(w: World, next: Option<Session>)
    requires Inv(w) && MayRewrite(w, next)
    ensures Inv(Step(w, Rewrite(next)))
  {
    var w' := Step(w, Rewrite(next));
    var b := OrEmpty(next).status.binding.id;
    if RewriteEvents(w, next) != [] {
      var e := RewriteEvents(w, next)[0];
      LogGrows(w.log, e, w.clock, w.attempts, w.submitted);
      L.LeaseAppend(w.log, e, b);
      ClaimsUnmoved(w, e);
    }
    SnapshotsOutdated(w, w'.stored, w'.log);
  }

  lemma StepKeeps(w: World, a: Action)
    requires Inv(w) && Enabled(w, a)
    ensures Inv(Step(w, a))
  {
    match a
    case Tick(elapsed) =>
    case Rewrite(next) => RewriteKeeps(w, next);
    case BeginClaim(c, b, attempt, staleAfter) => BeginClaimKeeps(w, c, b, attempt, staleAfter);
    case LookClaim(c) => LookClaimKeeps(w, c);
    case WriteClaim(c, luck) => WriteClaimKeeps(w, c, luck);
    case Submit(c, t) => SubmitKeeps(w, c, t);
    case Abandon(c) => EndClaimKeeps(w, c);
    case ReleaseVm(vm) =>
      ReleaseKeeps(w.pool, w.pool.labels[vm].binding, vm);
      PoolKeeps(w, Release(w.pool, w.pool.labels[vm].binding, vm), w.given);
    case RemoveVm(vm, detached) =>
      RemoveKeeps(w.pool, vm, detached);
      PoolKeeps(w, Remove(w.pool, vm, detached), w.given);
    case _ => WorkerStepKeeps(w, a);
  }

  lemma WorkerStepKeeps(w: World, a: Action)
    requires Inv(w) && Enabled(w, a)
    requires !(a.Tick? || a.Rewrite? || a.BeginClaim? || a.LookClaim? || a.WriteClaim? || a.Submit? || a.Abandon?
             || a.ReleaseVm? || a.RemoveVm?)
    ensures Inv(Step(w, a))
  {
    match a
    case Admit(t) => MoveKeeps(w, t, if IsCurrent(w, w.workers[t].binding) then Admitted else Finished);
    case Abort(t) => MoveKeeps(w, t, Finished);
    case ReadPlacement(t) => MoveKeeps(w, t, StageAfterPlacement(w));
    case Obtain(t, vm, secret) => ObtainKeeps(w, t, vm, secret);
    case Torn(t, vm, attached) => TornKeeps(w, t, vm, attached);
    case Misplaced(t, vm, zone, message, released) => MisplacedKeeps(w, t, vm, zone, message, released);
    case Refused(t, state, message) => MoveKeeps(w, t, Persisting(Result(state, message, None, ""), w.clock, 0, None));
    case LookPersist(t) =>
      ReadOk(w);
      MoveKeeps(w, t, w.workers[t].stage.(look := Some(w.stored)));
    case WritePersist(t, luck) => WritePersistKeeps(w, t, luck);
    case HandBack(t, released) => HandBackKeeps(w, t, released);
    case Finish(t) => FinishKeeps(w, t);
  }

  lemma BeginClaimKeeps(w: World, c: nat, b: string, attempt: string, staleAfter: Time)
    requires Inv(w) && Enabled(w, BeginClaim(c, b, attempt, staleAfter))
    ensures Inv(Step(w, BeginClaim(c, b, attempt, staleAfter)))
  {
  }

  lemma InitialInv(w: World)
    requires Initial(w)
    ensures Inv(w)
  {
  }

  lemma {:induction false} RunKeeps(w: World, actions: seq<Action>)
    requires Inv(w) && Behaviour(w, actions)
    ensures Inv(Run(w, actions))
    decreases |actions|
  {
    if actions != [] {
      StepKeeps(w, actions[0]);
      RunKeeps(Step(w, actions[0]), actions[1..]);
    }
  }
}
