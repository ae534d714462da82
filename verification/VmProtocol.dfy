/**
 * The concurrent VM-assignment protocol: reconcile passes claim attempts and submit workers, workers
 * obtain VMs and try to commit them, other writers change the session at will, stale bindings written
 * back among them. One step is one request to the API server or to the pool, so that reads and writes of
 * different calls interleave freely.
 */
module VmProtocol {
  import opened Prelude
  import opened Sessions
  import opened StatusPatch
  import opened StatusWriter
  import opened Serialisability
  import opened VmAssignment
  import opened VmPool
  import opened PoolDemand
  import L = VmLease

  /** A claim call, and what its reconcile pass does with the id: submit it, once. */
  datatype ClaimStage = Asking | Looking(snapshot: Option<Session>) | Won
  datatype Claim = Claim(binding: string, attempt: string, observedAt: Time, staleAfter: Time, tries: nat,
      stage: ClaimStage)

  /**
   * A task of the worker runtime. `Placing(zone)`: it read the placement and asks the pool there.
   * `Persisting` is a persist call in progress, `look` being the version it read and has not acted on;
   * with state "assigned" the worker holds the VM of the result.
   */
  datatype WorkerStage =
    | Queued
    | Admitted
    | Placing(zone: string)
    | Persisting(result: Result, observedAt: Time, tries: nat, look: Option<Option<Session>>)
    | Returning(vm: string)
    | Finished
  datatype Worker = Worker(binding: string, attempt: string, stage: WorkerStage)

  datatype World = World(
    stored: Option<Session>,
    revision: nat,
    clock: Time,
    bindings: set<string>,       // binding ids ever minted
    attempts: set<string>,       // attempt ids ever drawn
    claims: map<nat, Claim>,     // claim calls in progress, or won and not submitted yet
    declined: set<string>,       // attempts whose claim call answered None
    submitted: set<string>,      // attempts handed to the worker runtime
    workers: map<nat, Worker>,   // tasks accepted and not yet finished
    inflight: set<string>,       // the runtime's key set, for this assistant and task type
    catalog: Catalog,            // the pool locations
    pool: Pool,                  // the VMs labelled for this assistant's bindings, and its disks
    given: set<(string, string)>,  // (VM, binding) pairs: every VM the pool ever claimed for a binding
    log: seq<L.Event>)

  datatype Action =
    | Tick(elapsed: Time)
    | Rewrite(next: Option<Session>)
    | BeginClaim(claim: nat, binding: string, attempt: string, staleAfter: Time)
    | LookClaim(claim: nat)
    | WriteClaim(claim: nat, luck: Luck)
    | Submit(claim: nat, task: nat)
    | Abandon(claim: nat)
    | Admit(task: nat)
    | ReadPlacement(task: nat)
    | Abort(task: nat)
    | Obtain(task: nat, vm: VmRef, desktopSecret: string)
    | Torn(task: nat, name: string, attached: bool)
    | Misplaced(task: nat, name: string, zone: string, message: string, released: bool)
    | Refused(task: nat, state: string, message: string)
    | LookPersist(task: nat)
    | WritePersist(task: nat, luck: Luck)
    | HandBack(task: nat, released: bool)
    | Finish(task: nat)
    | ReleaseVm(name: string)
    | RemoveVm(name: string, detached: bool)

  // ---- who has which VM ----

  predicate Holds(worker: Worker) {
    worker.stage.Returning? || (worker.stage.Persisting? && worker.stage.result.state == ASSIGNED
        && HasVm(worker.stage.result))
  }

  function HeldVm(worker: Worker): string
    requires Holds(worker)
  {
    if worker.stage.Returning? then worker.stage.vm else worker.stage.result.vmRef.value.name
  }

  // ---- other writers ----

  function CurrentBinding(w: World): Binding {
    OrEmpty(w.stored).status.binding
  }

  /** The lease a binding shows, if its VM and its assignment make sense together. */
  function LeaseShown(binding: Binding): Option<L.Lease> {
    match (binding.vmRef, binding.vmAssignment)
    case (None, None) => Some(L.Free)
    case (None, Some(assignment)) =>
      if assignment.state != IN_PROGRESS then Some(L.Over(assignment.attemptId))
      else if assignment.observedAt.Some? then Some(L.Taken(assignment.attemptId, assignment.observedAt.value))
      else None
    case (Some(vm), None) => if vm.name != "" then Some(L.Owned(vm.name)) else None
    case (Some(_), Some(_)) => None
  }

  /** A lease another writer may show: one that was claimed, or a VM the pool claimed for the binding. */
  ghost predicate MayShow(w: World, b: string, lease: L.Lease) {
    && (lease.Taken? ==> L.WasTaken(w.log, b, lease.attempt, lease.observedAt))
    && (lease.Owned? ==> (lease.vm, b) in w.given)
  }

  /**
   * What any other writer may do: anything to the spec, to deletion and to the rest of the status. Of the
   * binding it may change the id, clear the VM or the assignment, write an older binding back, or show a VM
   * found by its label; it makes up neither an attempt nor a VM.
   */
  ghost predicate MayRewrite(w: World, next: Option<Session>) {
    next.Some? ==>
      var binding := next.value.status.binding;
      && LeaseShown(binding).Some?
      && (if binding.id == "" then LeaseShown(binding).value == L.Free
          else MayShow(w, binding.id, LeaseShown(binding).value))
  }

  function RewriteEvents(w: World, next: Option<Session>): seq<L.Event> {
    var binding := OrEmpty(next).status.binding;
    if binding.id != "" && LeaseShown(binding).Some? && LeaseShown(binding).value != L.LeaseOf(w.log, binding.id)
    then [L.Rewritten(binding.id, LeaseShown(binding).value, w.clock)] else []
  }

  // ---- steps ----

  ghost predicate Enabled(w: World, a: Action) {
    match a
    case Tick(elapsed) => elapsed >= 0.0
    case Rewrite(next) => MayRewrite(w, next)
    case BeginClaim(c, b, attempt, _) => c !in w.claims && b in w.bindings && attempt !in w.attempts
    case LookClaim(c) => c in w.claims && w.claims[c].stage.Asking?
    case WriteClaim(c, _) => c in w.claims && w.claims[c].stage.Looking?
    case Submit(c, t) => c in w.claims && w.claims[c].stage.Won? && t !in w.workers
    case Abandon(c) => c in w.claims
    case Admit(t) => t in w.workers && w.workers[t].stage.Queued?
    case ReadPlacement(t) => t in w.workers && w.workers[t].stage.Admitted?
    case Abort(t) => t in w.workers
        && (w.workers[t].stage.Admitted? || (w.workers[t].stage.Persisting? && !Holds(w.workers[t])))
    case Obtain(t, vm, _) => t in w.workers && w.workers[t].stage.Placing?
        && MayGive(w.pool, w.workers[t].binding, w.workers[t].stage.zone, vm.name)
    case Torn(t, vm, _) => t in w.workers && w.workers[t].stage.Placing?
        && MayTear(w.pool, w.workers[t].binding, w.workers[t].stage.zone, vm)
    case Misplaced(t, vm, zone, _, _) =>
        t in w.workers && w.workers[t].stage.Placing? && MayGive(w.pool, w.workers[t].binding, zone, vm)
    case Refused(t, state, _) => t in w.workers && w.workers[t].stage.Placing?
        && state in {"capacity", "waiting_release", "error"}
    case LookPersist(t) => t in w.workers && w.workers[t].stage.Persisting? && w.workers[t].stage.look.None?
    case WritePersist(t, _) => t in w.workers && w.workers[t].stage.Persisting? && w.workers[t].stage.look.Some?
    case HandBack(t, _) => t in w.workers && w.workers[t].stage.Returning?
    case Finish(t) => t in w.workers && w.workers[t].stage.Finished?
    case ReleaseVm(vm) => IsAssigned(w.pool, vm)
    case RemoveVm(vm, _) => vm in w.pool.labels
  }

  function SetClaim(w: World, c: nat, tries: nat, stage: ClaimStage): World
    requires c in w.claims
  {
    w.(claims := w.claims[c := w.claims[c].(tries := tries, stage := stage)])
  }

  function EndClaim(w: World, c: nat): World {
    w.(claims := w.claims - {c})
  }

  function SetWorker(w: World, t: nat, stage: WorkerStage): World
    requires t in w.workers
  {
    w.(workers := w.workers[t := w.workers[t].(stage := stage)])
  }

  /** A status write over the version now stored. */
  function Overwrite(w: World, next: Status, e: L.Event): World
    requires w.stored.Some?
  {
    w.(stored := Some(w.stored.value.(status := next, resourceVersion := w.revision + 1)),
       revision := w.revision + 1,
       log := w.log + [e])
  }

  /** Of the workers, at most `t` moves, and it gets no VM it did not have. */
  predicate MovesOnly(w: World, w': World, t: nat) {
    && t in w.workers && t in w'.workers && w'.claims == w.claims
    && w'.workers == w.workers[t := w.workers[t].(stage := w'.workers[t].stage)]
    && !w'.workers[t].stage.Queued? && !w'.workers[t].stage.Admitted? && !w'.workers[t].stage.Placing?
    && (Holds(w'.workers[t]) ==> Holds(w.workers[t]) && HeldVm(w'.workers[t]) == HeldVm(w.workers[t]))
  }

  /** Of the claim calls, at most `c` moves or ends. */
  predicate OthersClaims(w: World, w': World, c: nat) {
    && c in w.claims && w'.claims.Keys <= w.claims.Keys
    && (forall d :: d in w'.claims && d != c ==> w'.claims[d] == w.claims[d])
    && (c in w'.claims ==> w'.claims[c] == w.claims[c].(tries := w'.claims[c].tries, stage := w'.claims[c].stage))
  }

  /** A claim call ends: with the id it is won, with None it is over. */
  function AnswerClaim(w: World, c: nat, updated: Option<Session>): (w': World)
    requires c in w.claims
    ensures w'.workers == w.workers && w'.pool == w.pool && w'.log == w.log && OthersClaims(w, w', c)
  {
    if ClaimAnswer(updated, w.claims[c].binding, w.claims[c].attempt).Some? then SetClaim(w, c, w.claims[c].tries, Won)
    else EndClaim(w, c).(declined := w.declined + {w.claims[c].attempt})
  }

  predicate Matches(stored: Option<Session>, snapshot: Option<Session>) {
    stored.Some? && snapshot.Some? && stored.value.resourceVersion == snapshot.value.resourceVersion
  }

  function ClaimReplace(w: World, c: nat, next: Status, luck: Luck): (w': World)
    requires c in w.claims && w.claims[c].stage.Looking?
    ensures w'.workers == w.workers && w'.pool == w.pool && OthersClaims(w, w', c)
  {
    var claim := w.claims[c];
    if luck.RequestLost? || w.stored.None? || claim.stage.snapshot.None? then EndClaim(w, c)
    else if !Matches(w.stored, claim.stage.snapshot) then
      if claim.tries + 1 < MAX_CAS_RETRIES then SetClaim(w, c, claim.tries + 1, Asking) else EndClaim(w, c)
    else
      var w' := Overwrite(w, next, L.Claimed(claim.binding, claim.attempt, claim.observedAt, claim.staleAfter, w.clock,
          w.stored.value));
      if luck.Delivered? then AnswerClaim(w', c, w'.stored) else EndClaim(w', c)
  }

  function ClaimWrite(w: World, c: nat, luck: Luck): (w': World)
    requires c in w.claims && w.claims[c].stage.Looking?
    ensures w'.workers == w.workers && w'.pool == w.pool && OthersClaims(w, w', c)
  {
    var claim := w.claims[c];
    match ClaimDecided(claim.stage.snapshot, claim.binding, claim.attempt, claim.observedAt, claim.staleAfter, w.clock)
    case ReturnCurrent => AnswerClaim(w, c, claim.stage.snapshot)
    case Raise => EndClaim(w, c)
    case Write(next) => ClaimReplace(w, c, next, luck)
  }

  function ErrorResult(): Result {
    Result("error", "", None, "")
  }

  /** `persist` returned `answer`: with false the VM goes back to the pool, with true it counts as stored. */
  function AnswerPersist(w: World, t: nat, answer: bool): (w': World)
    requires t in w.workers
    ensures MovesOnly(w, w', t) && w'.log == w.log && w'.pool == w.pool && w'.stored == w.stored
  {
    SetWorker(w, t, if Holds(w.workers[t]) && !answer then Returning(HeldVm(w.workers[t])) else Finished)
  }

  /** `persist` raised: an assignment is then reported as an error, and its VM is not released. */
  function RaisePersist(w: World, t: nat): (w': World)
    requires t in w.workers
    ensures MovesOnly(w, w', t) && w'.log == w.log && w'.pool == w.pool && w'.stored == w.stored
  {
    SetWorker(w, t, if Holds(w.workers[t]) then Persisting(ErrorResult(), w.clock, 0, None) else Finished)
  }

  function OutcomeEvent(w: World, worker: Worker): L.Event
    requires worker.stage.Persisting? && w.stored.Some?
  {
    if Holds(worker) then L.Assigned(worker.binding, worker.attempt, HeldVm(worker), w.clock, w.stored.value)
    else L.Settled(worker.binding, worker.attempt, worker.stage.result.state, w.clock, w.stored.value)
  }

  function PersistReplace(w: World, t: nat, next: Status, luck: Luck): (w': World)
    requires t in w.workers && w.workers[t].stage.Persisting? && w.workers[t].stage.look.Some?
    ensures MovesOnly(w, w', t) && w'.pool == w.pool
  {
    var worker := w.workers[t];
    var snapshot := worker.stage.look.value;
    if luck.RequestLost? || w.stored.None? || snapshot.None? then RaisePersist(w, t)
    else if !Matches(w.stored, snapshot) then
      if worker.stage.tries + 1 < MAX_CAS_RETRIES then
        SetWorker(w, t, worker.stage.(tries := worker.stage.tries + 1, look := None))
      else RaisePersist(w, t)
    else
      var w' := Overwrite(w, next, OutcomeEvent(w, worker));
      if luck.Delivered? then AnswerPersist(w', t,
          PersistAnswer(w'.stored, worker.binding, worker.attempt, worker.stage.result.state))
      else RaisePersist(w', t)
  }

  function PersistWrite(w: World, t: nat, luck: Luck): (w': World)
    requires t in w.workers && w.workers[t].stage.Persisting? && w.workers[t].stage.look.Some?
    ensures MovesOnly(w, w', t) && w'.pool == w.pool
  {
    var worker := w.workers[t];
    var snapshot := worker.stage.look.value;
    match PersistDecided(snapshot, worker.binding, worker.attempt, worker.stage.result, worker.stage.observedAt)
    case ReturnCurrent => AnswerPersist(w, t,
        PersistAnswer(snapshot, worker.binding, worker.attempt, worker.stage.result.state))
    case Raise => RaisePersist(w, t)
    case Write(next) => PersistReplace(w, t, next, luck)
  }

  /** The persist call raises, its write not having landed. */
  predicate PersistFails(w: World, t: nat, luck: Luck)
    requires t in w.workers && w.workers[t].stage.Persisting? && w.workers[t].stage.look.Some?
  {
    var worker := w.workers[t];
    var snapshot := worker.stage.look.value;
    var decision := PersistDecided(snapshot, worker.binding, worker.attempt, worker.stage.result,
        worker.stage.observedAt);
    || decision.Raise?
    || (decision.Write? && (luck.RequestLost? || w.stored.None? || snapshot.None?
                            || (!Matches(w.stored, snapshot) && worker.stage.tries + 1 >= MAX_CAS_RETRIES)))
  }

  /** `_binding_is_current`. */
  predicate IsCurrent(w: World, b: string) {
    w.stored.Some? && DesiredState(w.stored.value) != STOPPED && CurrentBinding(w).id == b
  }

  /** The worker's own look at the placement: unreadable raises outside its error handling, missing is refused. */
  function StageAfterPlacement(w: World): WorkerStage {
    match PlacementOf(OrEmpty(w.stored), w.catalog)
    case Invalid(_) => Finished
    case Placed(None) => Persisting(Result("capacity", NO_PLACEMENT, None, ""), w.clock, 0, None)
    case Placed(Some(placement)) => Placing(placement.zone)
  }

  ghost function Step(w: World, a: Action): World
    requires Enabled(w, a)
  {
    match a
    case Tick(elapsed) => w.(clock := w.clock + elapsed)
    case Rewrite(next) =>
      w.(stored := Stored(next, w.revision + 1),
         revision := w.revision + 1,
         bindings := w.bindings + (if OrEmpty(next).status.binding.id == "" then {}
             else {OrEmpty(next).status.binding.id}),
         log := w.log + RewriteEvents(w, next))
    case BeginClaim(c, b, attempt, staleAfter) =>
      w.(claims := w.claims[c := Claim(b, attempt, w.clock, staleAfter, 0, Asking)], attempts := w.attempts + {attempt})
    case LookClaim(c) => SetClaim(w, c, w.claims[c].tries, Looking(w.stored))
    case WriteClaim(c, luck) => ClaimWrite(w, c, luck)
    case Submit(c, t) =>
      var claim := w.claims[c];
      var w' := EndClaim(w, c).(submitted := w.submitted + {claim.attempt});
      if claim.binding in w.inflight then w'  // deduplicated
      else w'.(inflight := w.inflight + {claim.binding},
          workers := w.workers[t := Worker(claim.binding, claim.attempt, Queued)])
    case Abandon(c) => EndClaim(w, c)
    case Admit(t) => SetWorker(w, t, if IsCurrent(w, w.workers[t].binding) then Admitted else Finished)
    case Abort(t) => SetWorker(w, t, Finished)
    case ReadPlacement(t) => SetWorker(w, t, StageAfterPlacement(w))
    case Obtain(t, vm, secret) =>
      var b, zone := w.workers[t].binding, w.workers[t].stage.zone;
      SetWorker(w, t, Persisting(Result(ASSIGNED, "", Some(vm), secret), w.clock, 0, None))
      .(pool := Give(w.pool, b, zone, vm.name), given := w.given + {(vm.name, b)})
    case Torn(t, vm, attached) =>
      var b, zone := w.workers[t].binding, w.workers[t].stage.zone;
      SetWorker(w, t, Persisting(ErrorResult(), w.clock, 0, None))
      .(pool := Tear(w.pool, b, zone, vm, attached), given := w.given + {(vm, b)})
    case Misplaced(t, vm, zone, message, released) =>  // the pool gave a VM elsewhere: it goes back, or stays claimed
      var b := w.workers[t].binding;
      SetWorker(w, t, Persisting(Result("capacity", message, None, ""), w.clock, 0, None))
      .(pool := Rejected(w.pool, b, zone, vm, released), given := w.given + {(vm, b)})
    case Refused(t, state, message) => SetWorker(w, t, Persisting(Result(state, message, None, ""), w.clock, 0, None))
    case LookPersist(t) => SetWorker(w, t, w.workers[t].stage.(look := Some(w.stored)))
    case WritePersist(t, luck) => PersistWrite(w, t, luck)
    case HandBack(t, released) =>
      SetWorker(w, t, Finished)
      .(pool := if released then Release(w.pool, w.workers[t].binding, w.workers[t].stage.vm) else w.pool)
    case Finish(t) => w.(workers := w.workers - {t}, inflight := w.inflight - {w.workers[t].binding})
    case ReleaseVm(vm) => w.(pool := Release(w.pool, w.pool.labels[vm].binding, vm))
    case RemoveVm(vm, detached) => w.(pool := Remove(w.pool, vm, detached))
  }

  ghost predicate Behaviour(w: World, actions: seq<Action>)
    decreases |actions|
  {
    actions == [] || (Enabled(w, actions[0]) && Behaviour(Step(w, actions[0]), actions[1..]))
  }

  ghost function Run(w: World, actions: seq<Action>): World
    requires Behaviour(w, actions)
    decreases |actions|
  {
    if actions == [] then w else Run(Step(w, actions[0]), actions[1..])
  }

  /** A session, if any, whose binding, if any, has neither a VM nor a claim; and nothing under way. */
  ghost predicate Initial(w: World) {
    && (w.stored.Some? ==>
          && w.stored.value.resourceVersion <= w.revision
          && CurrentBinding(w).vmRef.None? && CurrentBinding(w).vmAssignment.None?
          && (CurrentBinding(w).id != "" ==> CurrentBinding(w).id in w.bindings))
    && "" !in w.bindings
    && w.claims == map[] && w.workers == map[] && w.inflight == {}
    && w.pool == EMPTY && w.given == {}
    && w.submitted == {} && w.declined == {} && w.log == []
  }
}
