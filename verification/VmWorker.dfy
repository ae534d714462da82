/** `_run_vm_assignment`: one worker's side effects on the session and on the VM pool, against live interference. */
module VmWorker {
  import opened Prelude
  import opened Sessions
  import opened ApiServer
  import opened VmAssignment
  import opened VmAssignmentCalls
  import opened VmPool
  import opened PoolDemand
  import Json

  /** A VM, or an exception: ValueError, AssistantDiskInUseError, any other, with its text. */
  datatype PoolReply =
    | Given(vm: VmRef, secret: string)
    | NoCapacity(message: string)
    | DiskInUse(message: string)
    | Broken(message: string)

  /** What a pool call that raised left claimed: nothing, or a VM, with the disk attached or not yet. */
  datatype Leftover = Nothing | Torn(vm: string, attached: bool)

  function PoolAfterCall(pool: Pool, b: string, zone: string, reply: PoolReply, left: Leftover): Pool {
    if reply.Given? then Give(pool, b, zone, reply.vm.name)
    else if left.Torn? then Tear(pool, b, zone, left.vm, left.attached)
    else pool
  }

  ghost predicate MayReply(pool: Pool, b: string, zone: string, reply: PoolReply, left: Leftover) {
    && (reply.Given? ==> MayGive(pool, b, zone, reply.vm.name) && left.Nothing?)
    && (left.Torn? ==> MayTear(pool, b, zone, left.vm))
  }

  /**
   * One request of this worker: what it asked, whether it went through, and what it made of the pool. A move
   * is prepared, and the idle pool replenished, without any VM changing hands.
   */
  datatype Request =
    | PrepareMove(binding: string, source: Placement, target: Placement, ok: bool)
    | AssignTo(binding: string, at: Placement, attachIp: bool, before: Pool, after: Pool)
    | ReleaseOf(binding: string, vm: string, scope: Option<Placement>, ok: bool, before: Pool, after: Pool)
    | Replenish(at: Placement, ok: bool)

  /** The pool behind its calls, whose replies are up to it, and which others use in between. */
  class PoolService {
    var pool: Pool
    /** What this client asked, in order. */
    ghost var requests: seq<Request>

    constructor ()
      ensures pool == EMPTY && requests == []
    {
      pool := EMPTY;
      requests := [];
    }

    /** Assignments, torn ones too, releases and removals by others. */
    method Interfere()
      requires PoolOk(pool)
      modifies this`pool
      ensures PoolOk(pool)
    {
      var steps: int := *;
      for i := 0 to if steps < 0 then 0 else steps
        invariant PoolOk(pool)
      {
        var b: string, zone: string, vm: string, flag: bool, kind: int := *, *, *, *, *;
        if kind == 0 && MayGive(pool, b, zone, vm) {
          GiveKeeps(pool, b, zone, vm);
          pool := Give(pool, b, zone, vm);
        } else if kind == 1 && MayTear(pool, b, zone, vm) {
          TearKeeps(pool, b, zone, vm, flag);
          pool := Tear(pool, b, zone, vm, flag);
        } else if kind == 2 {
          ReleaseKeeps(pool, b, vm);
          pool := Release(pool, b, vm);
        } else if kind == 3 {
          RemoveKeeps(pool, vm, flag);
          pool := Remove(pool, vm, flag);
        }
      }
    }

    method AssignVm(b: string, at: Placement, attachIp: bool) returns (reply: PoolReply, ghost left: Leftover)
      requires PoolOk(pool)
      modifies this
      ensures PoolOk(pool) && |requests| == |old(requests)| + 1 && old(requests) <= requests
      ensures var request := requests[|requests| - 1];
              && request.AssignTo? && request.binding == b && request.at == at && request.attachIp == attachIp
              && PoolOk(request.before) && MayReply(request.before, b, at.zone, reply, left)
              && request.after == PoolAfterCall(request.before, b, at.zone, reply, left) && request.after == pool
    {
      Interfere();
      ghost var before := pool;
      reply, left := Reply(b, at.zone);
      requests := requests + [AssignTo(b, at, attachIp, before, pool)];
    }

    /** The assignment itself. */
    method Reply(b: string, zone: string) returns (reply: PoolReply, ghost left: Leftover)
      requires PoolOk(pool)
      modifies this`pool
      ensures PoolOk(pool) && MayReply(old(pool), b, zone, reply, left)
      ensures pool == PoolAfterCall(old(pool), b, zone, reply, left)
    {
      reply, left := *, Nothing;
      if reply.Given? {
        if Adopts(pool, b, zone) {
          reply := reply.(vm := reply.vm.(name := pool.disks[zone]));
        } else if !DiskIsFree(pool, b, zone) || !IsIdle(pool, reply.vm.name, zone) {
          return DiskInUse(""), Nothing;
        }
        GiveKeeps(pool, b, zone, reply.vm.name);
        pool := Give(pool, b, zone, reply.vm.name);
        return;
      }
      var torn: string, attached: bool := *, *;
      if MayTear(pool, b, zone, torn) {
        TearKeeps(pool, b, zone, torn, attached);
        left := Torn(torn, attached);
        pool := Tear(pool, b, zone, torn, attached);
      }
    }

    method ReleaseVm(b: string, name: string, at: Option<Placement>) returns (ok: bool)
      requires PoolOk(pool)
      modifies this
      ensures PoolOk(pool) && |requests| == |old(requests)| + 1 && old(requests) <= requests
      ensures var request := requests[|requests| - 1];
              && request.ReleaseOf? && request == ReleaseOf(b, name, at, ok, request.before, pool)
                  && PoolOk(request.before)
              && pool == if ok then Release(request.before, b, name) else request.before
    {
      Interfere();
      ghost var before := pool;
      ok := *;
      if ok {
        ReleaseKeeps(pool, b, name);
        pool := Release(pool, b, name);
      }
      requests := requests + [ReleaseOf(b, name, at, ok, before, pool)];
    }

    /** `prepare_assistant_cross_region_migration`: the disk is copied, or the call raises. */
    method PrepareMigration(b: string, source: Placement, target: Placement) returns (ok: bool)
      modifies this
      ensures pool == old(pool) && requests == old(requests) + [PrepareMove(b, source, target, ok)]
    {
      ok := *;
      requests := requests + [PrepareMove(b, source, target, ok)];
    }

    /** `replenish_pool` in the scope of a placement, or it raises. */
    method ReplenishPool(at: Placement) returns (ok: bool)
      modifies this
      ensures pool == old(pool) && requests == old(requests) + [Replenish(at, ok)]
    {
      ok := *;
      requests := requests + [Replenish(at, ok)];
    }
  }

  // ---- what a worker came to ----

  /**
   * It did nothing; the pool refused; the VM was elsewhere and, its own placement being readable, handed
   * back; or a persist call of it answered true, answered false, or raised. `released`: a release went through.
   */
  datatype Fate =
    | Skipped
    | Refused(reply: PoolReply, left: Leftover)
    | Misplaced(vm: VmRef, secret: string, readable: bool, released: bool)
    | Kept(vm: VmRef, secret: string)
    | HandedBack(vm: VmRef, secret: string, released: bool)
    | Unsettled(vm: VmRef, secret: string)

  function RefOf(vm: VmRef): map<string, Json.Value> {
    map["poolLocation" := Json.Text(vm.poolLocation), "region" := Json.Text(vm.region), "zone" := Json.Text(vm.zone)]
  }

  predicate InPlace(vm: VmRef, placement: Placement) {
    vm.poolLocation == placement.location.id && vm.region == placement.location.region && vm.zone == placement.zone
  }

  /** What is reported of a refusal, by kind of exception. */
  function Refusal(reply: PoolReply): Result
    requires !reply.Given?
  {
    match reply
    case NoCapacity(message) => Result("capacity", message, None, "")
    case DiskInUse(message) => Result("waiting_release", message, None, "")
    case Broken(message) => Result("error", message, None, "")
  }

  function Misplacement(vm: VmRef, placement: Placement, catalog: Catalog): Result {
    var message := match PlacementFromRef(RefOf(vm), catalog)
      case Invalid(error) => error
      case Placed(_) =>
        "Pool assignment returned a VM outside the requested placement: expected=" + placement.location.id + "/"
            + placement.zone
        + " actual=" + vm.poolLocation + "/" + vm.zone;
    Result("capacity", message, None, "")
  }

  /** One report of this result, unless the request before it raised. */
  predicate Reports(calls: seq<Call>, result: Result, raised: bool) {
    if raised then calls == [] else |calls| == 1 && calls[0].result == result
  }

  /** The pool could not be replenished at the end. */
  predicate EndsInVain(closing: seq<Request>) {
    |closing| > 0 && closing[|closing| - 1].Replenish? && !closing[|closing| - 1].ok
  }

  /** The persist calls a worker of this fate made, in order. */
  predicate CallsOf(fate: Fate, calls: seq<Call>, closing: seq<Request>, placement: Option<Placement>,
      catalog: Catalog)
  {
    match fate
    case Skipped => calls == []
    case Refused(reply, _) => !reply.Given? && Reports(calls, Refusal(reply), EndsInVain(closing))
    case Misplaced(vm, _, _, _) =>
      && placement.Some? && !InPlace(vm, placement.value)
      && Reports(calls, Misplacement(vm, placement.value, catalog), EndsInVain(closing))
    case Kept(vm, secret) =>
      && placement.Some? && InPlace(vm, placement.value) && |calls| == 1
      && calls[0].result == Result("assigned", "", Some(vm), secret) && calls[0].answer == Answered(true)
    case HandedBack(vm, secret, _) =>
      && placement.Some? && InPlace(vm, placement.value) && |calls| == 1
      && calls[0].result == Result("assigned", "", Some(vm), secret) && calls[0].answer == Answered(false)
    case Unsettled(vm, secret) =>
      && placement.Some? && InPlace(vm, placement.value) && |calls| == 2
      && calls[0].result == Result("assigned", "", Some(vm), secret) && calls[0].answer.Raised?
      && calls[1].result == Result("error", calls[0].answer.error, None, "")
  }

  function ReplyOf(fate: Fate): PoolReply
    requires !fate.Skipped?
  {
    if fate.Refused? then fate.reply else Given(fate.vm, fate.secret)
  }

  function LeftBy(fate: Fate): Leftover {
    if fate.Refused? then fate.left else Nothing
  }

  /**
   * The requests up to the reply: without a placement none; where the VM must come from another region, its move
   * is prepared first, and only if that raises is no VM asked for.
   */
  ghost predicate Opens(opening: seq<Request>, reply: PoolReply, left: Leftover, b: string,
      placement: Option<Placement>, source: Option<Placement>)
  {
    if placement.None? then
      opening == [] && left.Nothing? && reply == NoCapacity(NO_PLACEMENT)
    else if source.Some? && opening == [PrepareMove(b, source.value, placement.value, false)] then
      left.Nothing? && (reply.NoCapacity? || reply.Broken?)
    else
      var first := if source.Some? then 1 else 0;
      && |opening| == first + 1
      && (source.Some? ==> opening[0] == PrepareMove(b, source.value, placement.value, true))
      && Asks(opening[first], reply, left, b, placement.value, source.None?)
  }

  /** The request for a VM, and the pool's reply. */
  ghost predicate Asks(request: Request, reply: PoolReply, left: Leftover, b: string, at: Placement, attachIp: bool) {
    && request.AssignTo? && request.binding == b && request.at == at && request.attachIp == attachIp
    && PoolOk(request.before) && MayReply(request.before, b, at.zone, reply, left)
    && request.after == PoolAfterCall(request.before, b, at.zone, reply, left)
  }

  predicate TakesBack(request: Request, b: string, vm: string, at: Option<Placement>, ok: bool) {
    && request.ReleaseOf? && request.binding == b && request.vm == vm && request.scope == at && request.ok == ok
    && request.after == if ok then Release(request.before, b, vm) else request.before
  }

  /** The requests after the reply. */
  predicate Closes(fate: Fate, closing: seq<Request>, b: string, placement: Option<Placement>, catalog: Catalog) {
    match fate
    case Skipped => closing == []
    case Refused(reply, _) =>
      if reply.NoCapacity? && placement.Some?
      then |closing| == 1 && closing[0].Replenish? && closing[0].at == placement.value
      else closing == []
    case Misplaced(vm, _, readable, released) =>
      var actual := PlacementFromRef(RefOf(vm), catalog);
      && placement.Some? && readable == actual.Placed?
      && |closing| == (if readable then 2 else 1)
      && (readable ==> TakesBack(closing[0], b, vm.name, actual.placement, released))
      && closing[|closing| - 1].Replenish? && closing[|closing| - 1].at == placement.value
    case Kept(_, _) => closing == []
    case HandedBack(vm, _, released) => |closing| == 1 && TakesBack(closing[0], b, vm.name, placement, released)
    case Unsettled(_, _) => closing == []
  }

  /** A release of the worker's VM went through. */
  predicate WasReleased(fate: Fate) {
    (fate.HandedBack? && fate.released) || (fate.Misplaced? && fate.readable && fate.released)
  }

  /**
   * The pool gave the VM for the binding, and after the worker's release, if it made one and it went through, the
   * VM is no longer assigned to it; every other VM stays as that request found it.
   */
  lemma OutUnlessReleased(fate: Fate, opening: seq<Request>, closing: seq<Request>, b: string,
      placement: Option<Placement>, source: Option<Placement>, catalog: Catalog, other: string)
    requires !fate.Skipped? && !fate.Refused?
    requires Opens(opening, ReplyOf(fate), LeftBy(fate), b, placement, source)
    requires Closes(fate, closing, b, placement, catalog)
    ensures opening != [] && var asked := opening[|opening| - 1];
            asked.AssignTo? && asked.binding == b && IsAssignedTo(asked.after, fate.vm.name, b)
    ensures forall i :: 0 <= i < |closing| && closing[i].ReleaseOf? ==>
              var last := closing[i];
              && (WasReleased(fate) ==> !IsAssignedTo(last.after, fate.vm.name, b))
              && (!WasReleased(fate) ==> last.after == last.before)
              && (other != fate.vm.name ==> (IsAssigned(last.after, other) <==> IsAssigned(last.before, other)))
    ensures WasReleased(fate) ==> |closing| > 0 && closing[0].ReleaseOf? && closing[0].ok
  {
  }

  // ---- the persist calls of one worker ----

  function LandedAts(calls: seq<Call>): set<nat> {
    set c | c in calls && c.effect.Landed? :: c.effect.at
  }

  /** Every call went as persist calls go, raised only for a reason, and the session was written by nothing else. */
  twostate predicate Made(api: Server, calls: seq<Call>, b: string, attempt: string)
    reads api
  {
    && api.Valid() && old(api.states) <= api.states && old(api.failures) <= api.failures && |old(api.states)| > 0
    && (forall c :: c in calls ==>
          && Went(api.states, |old(api.states)| - 1, c, b, attempt)
          && (c.answer.Raised? ==>
                api.failures > old(api.failures) || |api.states| >= |old(api.states)| + 3))
    && api.own == old(api.own) + LandedAts(calls)
  }

  /** The session is there, on this binding, not being deleted, and does not say "Stopped". */
  predicate IsCurrentIn(state: Option<Session>, b: string) {
    && state.Some? && state.value.status.binding.id == b
    && !state.value.terminating && Json.Get(state.value.spec, "desiredState") != Json.Text("Stopped")
  }

  /** Where the binding's present VM is, if it has one. */
  function SourceOf(session: Session, catalog: Catalog): PlacementResult {
    if session.status.binding.vmRef.Some? then PlacementFromRef(RefOf(session.status.binding.vmRef.value), catalog)
        else Placed(None)
  }

  /** Both placements the worker looks up can be read; a name outside the catalog raises. */
  predicate Readable(session: Session, catalog: Catalog) {
    PlacementOf(session, catalog).Placed? && SourceOf(session, catalog).Placed?
  }

  /** The placement the VM has to be moved from: that of the session's present VM, in another region. */
  function MovesFrom(session: Session, catalog: Catalog): Option<Placement> {
    var placement, source := PlacementOf(session, catalog), SourceOf(session, catalog);
    if && placement.Placed? && source.Placed? && placement.placement.Some? && source.placement.Some?
       && placement.placement.value.location.region != source.placement.value.location.region
    then source.placement else None
  }

  predicate AsksForVm(requests: seq<Request>) {
    exists i :: 0 <= i < |requests| && requests[i].AssignTo?
  }

  /** The session's VM is in another region than the placement wanted, and its move could not be prepared. */
  predicate MoveFailed(requests: seq<Request>, b: string, vmRef: Option<VmRef>, wanted: Placement, catalog: Catalog) {
    match vmRef
    case None => false
    case Some(vm) =>
      match PlacementFromRef(RefOf(vm), catalog)
      case Placed(Some(there)) =>
        there.location.region != wanted.location.region && requests == [PrepareMove(b, there, wanted, false)]
      case _ => false
  }

  /** `_binding_is_current`. */
  method IsCurrent(api: Server, b: string) returns (current: bool)
    requires api.Valid()
    modifies api
    ensures api.Interfered() && api.failures == old(api.failures)
    ensures current <==> IsCurrentIn(api.stored, b)
  {
    var session := api.Get();
    DesiredStateMeans(OrEmpty(session));
    current := session.Some? && DesiredState(session.value) != STOPPED && session.value.status.binding.id == b;
  }

  /** A persist call of a result that names a VM wherever it has to. */
  method Report(api: Server, b: string, attempt: string, result: Result)
    returns (answer: Answer<bool>, ghost calls: seq<Call>)
    requires api.Valid() && (result.state == ASSIGNED ==> HasVm(result))
    modifies api
    ensures Made(api, calls, b, attempt)
    ensures |calls| == 1 && calls[0].result == result && calls[0].answer == answer
  {
    ghost var call;
    answer, call := Persist(api, b, attempt, result);
    calls := [call];
    assert calls[0] == call;
  }

  /** The report of a ValueError: the pool is replenished first, if there is a placement, and that may raise. */
  method ReportCapacity(api: Server, service: PoolService, b: string, attempt: string, result: Result,
      placement: Option<Placement>)
    returns (ghost calls: seq<Call>, ghost closing: seq<Request>)
    requires api.Valid() && PoolOk(service.pool) && result.state == "capacity"
    modifies api, service
    ensures Made(api, calls, b, attempt) && Reports(calls, result, EndsInVain(closing))
    ensures PoolOk(service.pool) && service.requests == old(service.requests) + closing
    ensures if placement.None? then closing == []
            else |closing| == 1 && closing[0].Replenish? && closing[0].at == placement.value
  {
    closing := [];
    if placement.Some? {
      var replenished := service.ReplenishPool(placement.value);
      closing := [Replenish(placement.value, replenished)];
      if !replenished {
        return [], closing;
      }
    }
    var _, made := Report(api, b, attempt, result);
    calls := made;
  }

  /** The pool gave no VM: one report, by kind of exception. */
  method ReportRefusal(api: Server, service: PoolService, b: string, attempt: string, reply: PoolReply,
      ghost left: Leftover, placement: Option<Placement>, ghost catalog: Catalog)
    returns (ghost calls: seq<Call>, ghost closing: seq<Request>)
    requires api.Valid() && PoolOk(service.pool) && !reply.Given?
    modifies api, service
    ensures Made(api, calls, b, attempt) && CallsOf(Refused(reply, left), calls, closing, placement, catalog)
    ensures PoolOk(service.pool) && service.requests == old(service.requests) + closing
    ensures Closes(Refused(reply, left), closing, b, placement, catalog)
  {
    closing := [];
    match reply {
      case NoCapacity(message) =>
        calls, closing := ReportCapacity(api, service, b, attempt, Result("capacity", message, None, ""), placement);
      case DiskInUse(message) =>
        var _, made := Report(api, b, attempt, Result("waiting_release", message, None, ""));
        calls := made;
      case Broken(message) =>
        var _, made := Report(api, b, attempt, Result("error", message, None, ""));
        calls := made;
    }
  }

  /**
   * A VM at the wrong place is handed back, unless its own placement cannot even be read; either way the
   * attempt is reported.
   */
  method RejectVm(api: Server, service: PoolService, b: string, attempt: string, vm: VmRef, secret: string,
      placement: Placement, catalog: Catalog)
    returns (ghost fate: Fate, ghost calls: seq<Call>, ghost closing: seq<Request>)
    requires api.Valid() && PoolOk(service.pool) && !InPlace(vm, placement)
    modifies api, service
    ensures Made(api, calls, b, attempt) && PoolOk(service.pool)
    ensures fate.Misplaced? && fate.vm == vm && fate.secret == secret
    ensures CallsOf(fate, calls, closing, Some(placement), catalog)
    ensures service.requests == old(service.requests) + closing && Closes(fate, closing, b, Some(placement), catalog)
  {
    var actual := PlacementFromRef(
      map["poolLocation" := Json.Text(vm.poolLocation), "region" := Json.Text(vm.region), "zone" := Json.Text(vm.zone)],
      catalog);
    var message: string;
    var released := false;
    ghost var back := [];
    match actual {
      case Invalid(error) => message := error;
      case Placed(at) =>
        released := service.ReleaseVm(b, vm.name, at);
        back := [service.requests[|service.requests| - 1]];
        message := "Pool assignment returned a VM outside the requested placement: expected=" + placement.location.id
            + "/" + placement.zone + " actual=" + vm.poolLocation + "/" + vm.zone;
    }
    fate := Misplaced(vm, secret, actual.Placed?, released);
    calls, closing := ReportCapacity(api, service, b, attempt, Result("capacity", message, None, ""), Some(placement));
    closing := back + closing;
  }

  /**
   * The VM is committed; where the persist call answers false it is handed back, and where it raises that is
   * reported.
   */
  method CommitVm(api: Server, service: PoolService, b: string, attempt: string, vm: VmRef, secret: string,
      placement: Placement, ghost catalog: Catalog)
    returns (ghost fate: Fate, ghost calls: seq<Call>, ghost closing: seq<Request>)
    requires api.Valid() && PoolOk(service.pool) && InPlace(vm, placement) && vm.name != ""
    modifies api, service
    ensures Made(api, calls, b, attempt) && PoolOk(service.pool)
    ensures (fate.Kept? || fate.HandedBack? || fate.Unsettled?) && fate.vm == vm && fate.secret == secret
    ensures CallsOf(fate, calls, closing, Some(placement), catalog)
    ensures service.requests == old(service.requests) + closing && Closes(fate, closing, b, Some(placement), catalog)
  {
    var persisted, first := Report(api, b, attempt, Result(ASSIGNED, "", Some(vm), secret));
    calls, closing := first, [];
    if persisted == Answered(true) {
      fate := Kept(vm, secret);
    } else if persisted == Answered(false) {
      var released := service.ReleaseVm(b, vm.name, Some(placement));
      fate, closing := HandedBack(vm, secret, released), [service.requests[|service.requests| - 1]];
    } else {
      ghost var states := api.states;
      var _, second := Report(api, b, attempt, Result("error", persisted.error, None, ""));
      fate := Unsettled(vm, secret);
      calls := first + second;
      WentStays(states, api.states, |old(api.states)| - 1, |old(api.states)| - 1, first[0], b, attempt);
      WentStays(api.states, api.states, |states| - 1, |old(api.states)| - 1, second[0], b, attempt);
      LandedTogether(first, second);
    }
  }

  lemma LandedTogether(first: seq<Call>, second: seq<Call>)
    ensures LandedAts(first + second) == LandedAts(first) + LandedAts(second)
  {
  }

  /** The pool gave a VM: commit it, or reject it if it is not where it should be. */
  method Settle(api: Server, service: PoolService, b: string, attempt: string, vm: VmRef, secret: string,
      placement: Placement, catalog: Catalog)
    returns (ghost fate: Fate, ghost calls: seq<Call>, ghost closing: seq<Request>)
    requires api.Valid() && PoolOk(service.pool) && vm.name != ""
    modifies api, service
    ensures Made(api, calls, b, attempt) && PoolOk(service.pool)
    ensures if InPlace(vm, placement) then fate.Kept? || fate.HandedBack? || fate.Unsettled? else fate.Misplaced?
    ensures fate.vm == vm && fate.secret == secret && CallsOf(fate, calls, closing, Some(placement), catalog)
    ensures service.requests == old(service.requests) + closing && Closes(fate, closing, b, Some(placement), catalog)
  {
    if vm.poolLocation != placement.location.id || vm.region != placement.location.region
        || vm.zone != placement.zone {
      fate, calls, closing := RejectVm(api, service, b, attempt, vm, secret, placement, catalog);
    } else {
      fate, calls, closing := CommitVm(api, service, b, attempt, vm, secret, placement, catalog);
    }
  }

  /** The pool's reply for the placement read; preparing a move from another region comes first and may raise. */
  method AskPool(service: PoolService, b: string, placement: Option<Placement>, source: Option<Placement>)
    returns (reply: PoolReply, ghost left: Leftover, ghost opening: seq<Request>)
    requires PoolOk(service.pool)
    modifies service
    ensures PoolOk(service.pool) && service.requests == old(service.requests) + opening
    ensures Opens(opening, reply, left, b, placement, source)
  {
    left, opening := Nothing, [];
    if placement.None? {
      return NoCapacity(NO_PLACEMENT), left, opening;
    }
    if source.Some? {
      var prepared := service.PrepareMigration(b, source.value, placement.value);
      opening := [PrepareMove(b, source.value, placement.value, prepared)];
      if !prepared {
        var invalid: bool, message: string := *, *;
        return if invalid then NoCapacity(message) else Broken(message), left, opening;
      }
    }
    reply, left := service.AssignVm(b, placement.value, source.None?);
    opening := opening + [service.requests[|service.requests| - 1]];
  }

  /** The worker from the first pool call on. */
  method AssignAndReport(api: Server, service: PoolService, catalog: Catalog, b: string, attempt: string,
      placement: Option<Placement>, source: Option<Placement>)
    returns (ghost fate: Fate, ghost calls: seq<Call>, ghost opening: seq<Request>, ghost closing: seq<Request>)
    requires api.Valid() && PoolOk(service.pool)
    modifies api, service
    ensures Made(api, calls, b, attempt) && PoolOk(service.pool) && !fate.Skipped?
    ensures service.requests == old(service.requests) + opening + closing
    ensures Opens(opening, ReplyOf(fate), LeftBy(fate), b, placement, source)
    ensures Closes(fate, closing, b, placement, catalog) && CallsOf(fate, calls, closing, placement, catalog)
  {
    var reply, left, asked := AskPool(service, b, placement, source);
    opening := asked;
    if reply.Given? {
      GivenHasName(opening, reply, left, b, placement, source);
      fate, calls, closing := Settle(api, service, b, attempt, reply.vm, reply.secret, placement.value, catalog);
    } else {
      fate := Refused(reply, left);
      calls, closing := ReportRefusal(api, service, b, attempt, reply, left, placement, catalog);
    }
  }

  /** A VM is given only where a placement asks for one, and it has a name. */
  lemma GivenHasName(opening: seq<Request>, reply: PoolReply, left: Leftover, b: string, placement: Option<Placement>,
      source: Option<Placement>)
    requires Opens(opening, reply, left, b, placement, source) && reply.Given?
    ensures placement.Some? && reply.vm.name != "" && left.Nothing?
  {
  }

  /** The placement wanted, and the one to move from, unless either names a place outside the catalog. */
  method ReadPlacements(session: Session, catalog: Catalog)
    returns (readable: bool, placement: Option<Placement>, source: Option<Placement>)
    ensures readable <==> PlacementOf(session, catalog).Placed? && SourceOf(session, catalog).Placed?
    ensures readable ==> placement == PlacementOf(session, catalog).placement && source == MovesFrom(session, catalog)
  {
    readable, placement, source := false, None, None;
    var wanted := PlacementFromRef(
      FieldsOf(Json.Get(FieldsOf(Json.Get(session.spec, "desktop")), "placement")), catalog);
    var there := Placed(None);
    if session.status.binding.vmRef.Some? {
      var vm := session.status.binding.vmRef.value;
      there := PlacementFromRef(
        map["poolLocation" := Json.Text(vm.poolLocation), "region" := Json.Text(vm.region),
            "zone" := Json.Text(vm.zone)], catalog);
    }
    if wanted.Invalid? || there.Invalid? {
      return;
    }
    readable, placement := true, wanted.placement;
    if placement.Some? && there.placement.Some?
        && there.placement.value.location.region != placement.value.location.region {
      source := there.placement;
    }
  }

  /**
   * One worker, from the two versions of the session it reads: its requests to the pool and its persist calls are
   * those of its fate, in order, each call went as persist calls go, and it wrote nothing else. It is skipped
   * exactly where its binding was not current, a placement or the startup secret could not be read; otherwise,
   * where the session names a placement, a VM is asked for there, unless the move of its present VM from another
   * region could not be prepared.
   */
  method RunVmAssignment(api: Server, service: PoolService, catalog: Catalog, b: string, attempt: string,
      secretReadable: bool)
    returns (ghost fate: Fate, ghost calls: seq<Call>, ghost opening: seq<Request>, ghost closing: seq<Request>,
        ghost checkedAt: nat, ghost readAt: nat)
    requires api.Valid() && PoolOk(service.pool)
    modifies api, service
    ensures Made(api, calls, b, attempt) && PoolOk(service.pool)
    ensures |old(api.states)| - 1 <= checkedAt <= readAt < |api.states|
    ensures fate.Skipped? <==>
              || !IsCurrentIn(api.states[checkedAt], b)
              || !Readable(OrEmpty(api.states[readAt]), catalog)
              || !secretReadable
    ensures service.requests == old(service.requests) + opening + closing
    ensures fate.Skipped? ==> calls == [] && opening == closing == [] && service.pool == old(service.pool)
    ensures !fate.Skipped? ==>
              var session := OrEmpty(api.states[readAt]);
              var placement := PlacementOf(session, catalog).placement;
              && Opens(opening, ReplyOf(fate), LeftBy(fate), b, placement, MovesFrom(session, catalog))
              && Closes(fate, closing, b, placement, catalog) && CallsOf(fate, calls, closing, placement, catalog)
              && (placement.Some? && !AsksForVm(opening) ==>
                    MoveFailed(opening, b, session.status.binding.vmRef, placement.value, catalog))
  {
    fate, calls, opening, closing := Skipped, [], [], [];
    var current := IsCurrent(api, b);
    checkedAt := |api.states| - 1;
    readAt := checkedAt;
    if !current {
      return;
    }
    var stored := api.Get();
    readAt := |api.states| - 1;
    ghost var states := api.states;
    fate, calls, opening, closing := RunOn(api, service, catalog, OrEmpty(stored), b, attempt, secretReadable);
    MadeSooner(states, old(api.states), api.states, calls, b, attempt);
  }

  /** The worker from its second read on. */
  method RunOn(api: Server, service: PoolService, catalog: Catalog, session: Session, b: string, attempt: string,
      secretReadable: bool)
    returns (ghost fate: Fate, ghost calls: seq<Call>, ghost opening: seq<Request>, ghost closing: seq<Request>)
    requires api.Valid() && PoolOk(service.pool)
    modifies api, service
    ensures Made(api, calls, b, attempt) && PoolOk(service.pool)
    ensures fate.Skipped? <==> !Readable(session, catalog) || !secretReadable
    ensures service.requests == old(service.requests) + opening + closing
    ensures fate.Skipped? ==> calls == [] && opening == closing == [] && service.pool == old(service.pool)
    ensures !fate.Skipped? ==>
              var placement := PlacementOf(session, catalog).placement;
              && Opens(opening, ReplyOf(fate), LeftBy(fate), b, placement, MovesFrom(session, catalog))
              && Closes(fate, closing, b, placement, catalog) && CallsOf(fate, calls, closing, placement, catalog)
              && (placement.Some? && !AsksForVm(opening) ==>
                    MoveFailed(opening, b, session.status.binding.vmRef, placement.value, catalog))
  {
    fate, calls, opening, closing := Skipped, [], [], [];
    var readable, placement, source := ReadPlacements(session, catalog);
    if !readable || !secretReadable {
      return;
    }
    fate, calls, opening, closing := AssignAndReport(api, service, catalog, b, attempt, placement, source);
    OpensWithoutAsking(session, catalog, opening, ReplyOf(fate), LeftBy(fate), b);
  }

  /** Where no VM was asked for, the session's VM is in another region, and its move failed. */
  lemma OpensWithoutAsking(session: Session, catalog: Catalog, opening: seq<Request>, reply: PoolReply, left: Leftover,
      b: string)
    requires PlacementOf(session, catalog).Placed? && SourceOf(session, catalog).Placed?
    requires Opens(opening, reply, left, b, PlacementOf(session, catalog).placement, MovesFrom(session, catalog))
    ensures PlacementOf(session, catalog).placement.Some? && !AsksForVm(opening) ==>
            MoveFailed(opening, b, session.status.binding.vmRef, PlacementOf(session, catalog).placement.value, catalog)
  {
  }

  /** Calls that went from a later start went from an earlier one. */
  lemma MadeSooner(middle: seq<Option<Session>>, start: seq<Option<Session>>, states: seq<Option<Session>>,
      calls: seq<Call>, b: string, attempt: string)
    requires |start| > 0 && start <= middle <= states
    requires forall c :: c in calls ==> Went(states, |middle| - 1, c, b, attempt)
    ensures forall c :: c in calls ==> Went(states, |start| - 1, c, b, attempt)
  {
  }
}
