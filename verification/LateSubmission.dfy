/**
 * A run in which no request fails and a VM is left behind all the same. Two passes claim for one binding, the
 * second once the first claim is stale. The second's worker stores a VM; the placement moves to another zone
 * under the same binding; only then does the first pass hand over its id.
 */
module LateSubmission {
  import opened Prelude
  import opened Sessions
  import opened VmAssignment
  import opened VmPool
  import opened VmProtocol
  import opened VmInvariants
  import opened VmGuarantees
  import opened VmExclusivity
  import opened VmPlaces
  import opened VmRuns
  import opened VmRecovery
  import opened PoolDemand
  import Json
  import S = Serialisability

  const CATALOG: Catalog := map["europe" := Location("europe", "europe-west1", ["zone-a", "zone-b"])]

  function Spec(zone: string): map<string, Json.Value> {
    map["desiredState" := Json.Text(RUNNING),
        "desktop" := Json.Object(map["placement" := Json.Object(map["poolLocation" := Json.Text("europe"),
            "zone" := Json.Text(zone)])])]
  }

  const SESSION := Session(1, false, Spec("zone-a"), EMPTY_STATUS.(binding := MintBinding("b", 0.0)))
  const START := World(Some(SESSION), 1, 0.0, {"b"}, {}, map[], {}, {}, map[], {}, CATALOG, EMPTY, {}, [])

  function Vm(name: string): VmRef {
    VmRef(name, "", "", "", "", "")
  }

  /** The session as stored, its placement moved. */
  function Moved(w: World, zone: string): Option<Session> {
    if w.stored.Some? then Some(w.stored.value.(spec := Spec(zone))) else None
  }

  function FirstClaims(): seq<Action> {
    Claiming(0, "b", "first", 10.0)
  }

  function SecondTakesOver(): seq<Action> {
    [Tick(10.0)] + Claiming(1, "b", "second", 10.0)
  }

  function SecondStores(): seq<Action> {
    Working(1, 1, Vm("vm-a"), "") + [WritePersist(1, S.Delivered), Finish(1)]
  }

  function FirstComesLate(): seq<Action> {
    Working(0, 0, Vm("vm-b"), "") + [WritePersist(0, S.Delivered)]
  }

  lemma PlacementIs(session: Session, zone: string)
    requires session.spec == Spec(zone) && zone in ["zone-a", "zone-b"]
    ensures PlacementOf(session, CATALOG) == Placed(Some(Placement(CATALOG["europe"], zone)))
  {
    assert Strip(zone) == zone && Strip("europe") == "europe" && Strip("") == "";
  }

  lemma StartIsInitial()
    ensures Initial(START) && Inv(START) && IsCurrent(START, "b") && Live(SESSION, "b")
  {
    InitialInv(START);
  }

  /** After both claims, the second's is the lease; the first pass still has its id to hand over. */
  lemma BothClaim() returns (w: World)
    ensures Behaviour(START, FirstClaims() + SecondTakesOver()) && w == Run(START, FirstClaims() + SecondTakesOver())
    ensures w == Claimed(Step(Claimed(START, 0, "b", "first", 10.0), Tick(10.0)), 1, "b", "second", 10.0)
  {
    StartIsInitial();
    ClaimsUndisturbed(START, 0, "b", "first", 10.0);
    var w1 := Claimed(START, 0, "b", "first", 10.0);
    RunKeeps(START, FirstClaims());
    StepKeeps(w1, Tick(10.0));
    OneStep(w1, Tick(10.0));
    var w2 := Step(w1, Tick(10.0));
    ClaimsUndisturbed(w2, 1, "b", "second", 10.0);
    RunOn(w1, [Tick(10.0)], Claiming(1, "b", "second", 10.0));
    RunOn(START, FirstClaims(), SecondTakesOver());
    w := Claimed(w2, 1, "b", "second", 10.0);
  }

  /** The session runs on binding "b" in this zone; the first pass still holds its id, and no worker is under way. */
  predicate FirstStillToCome(w: World, zone: string) {
    && w.stored.Some? && Live(w.stored.value, "b") && w.stored.value.spec == Spec(zone) && w.catalog == CATALOG
    && 0 in w.claims && w.claims[0].stage.Won? && w.claims[0].binding == "b"
    && w.workers == map[] && w.inflight == {}
  }

  /** "b" has its desk "vm-a" in zone-a, on the object too. */
  predicate HasDesk(w: World) {
    && CurrentBinding(w).vmRef == Some(Vm("vm-a")) && CurrentBinding(w).vmAssignment.None?
    && w.pool == Pool(map["vm-a" := Label("b", "zone-a", false, true)], map["zone-a" := "vm-a"])
        && ("vm-a", "b") in w.given
  }

  lemma BothClaimed(w: World)
    requires w == Claimed(Step(Claimed(START, 0, "b", "first", 10.0), Tick(10.0)), 1, "b", "second", 10.0)
    ensures FirstStillToCome(w, "zone-a") && w.pool == EMPTY && HeldBy(CurrentBinding(w), "second")
    ensures 1 in w.claims && w.claims[1].stage.Won? && w.claims[1].binding == "b" && w.claims[1].attempt == "second"
  {
  }

  lemma SecondStoresIt(w: World) returns (w': World)
    requires FirstStillToCome(w, "zone-a") && w.pool == EMPTY && HeldBy(CurrentBinding(w), "second")
    requires 1 in w.claims && w.claims[1].stage.Won? && w.claims[1].binding == "b" && w.claims[1].attempt == "second"
    ensures Behaviour(w, SecondStores()) && w' == Run(w, SecondStores()) && FirstStillToCome(w', "zone-a")
    ensures HasDesk(w')
  {
    PlacementIs(w.stored.value, "zone-a");
    WorksUndisturbed(w, 1, 1, "zone-a", Vm("vm-a"), "");
    var held := Worked(w, 1, 1, "zone-a", Vm("vm-a"), "");
    StoresUndisturbed(held, 1);
    w' := Stored(held, 1);
    RunOn(w, Working(1, 1, Vm("vm-a"), ""), [WritePersist(1, S.Delivered), Finish(1)]);
    assert held.workers - {1} == map[];
    assert {"b"} - {"b"} == {};
  }

  /** The placement of a session that has its VM is moved; the binding is not touched. */
  lemma PlacementMoves(w: World)
    requires Inv(w) && FirstStillToCome(w, "zone-a") && HasDesk(w)
    ensures var move := Rewrite(Moved(w, "zone-b"));
            Enabled(w, move) && FirstStillToCome(Step(w, move), "zone-b") && HasDesk(Step(w, move))
  {
    CurrentLease(w);
  }

  /** The late worker's persist call writes nothing. */
  lemma FirstWritesNothing(w: World)
    requires FirstStillToCome(w, "zone-b") && HasDesk(w)
    ensures Behaviour(w, FirstComesLate()) && Run(w, FirstComesLate()).stored == w.stored
  {
    PlacementIs(w.stored.value, "zone-b");
    WorksUndisturbed(w, 0, 0, "zone-b", Vm("vm-b"), "");
    var held := Worked(w, 0, 0, "zone-b", Vm("vm-b"), "");
    MissedPersist(held, 0, S.Delivered);
    OneStep(held, WritePersist(0, S.Delivered));
    RunOn(w, Working(0, 0, Vm("vm-b"), ""), [WritePersist(0, S.Delivered)]);
  }

  /** The late worker is given a second VM, in the new zone, and leaves it there. */
  lemma FirstIsFooled(actions: seq<Action>)
    requires Behaviour(START, actions) && FirstStillToCome(Run(START, actions), "zone-b")
    requires HasDesk(Run(START, actions))
    ensures var w := Run(START, actions);
            && Behaviour(w, FirstComesLate()) && LeftBehind(Run(w, FirstComesLate()), "vm-b")
                && Names(Run(w, FirstComesLate()).stored, "b", "vm-a")
  {
    StartIsInitial();
    ReachableInv(START, actions);
    var w := Run(START, actions);
    PlacementIs(w.stored.value, "zone-b");
    FirstWritesNothing(w);
    LateWorkerLeavesBehind(START, actions, 0, 0, "zone-b", Vm("vm-b"), "");
  }

  function BeforeMove(): seq<Action> {
    (FirstClaims() + SecondTakesOver()) + SecondStores()
  }

  lemma DeskIsStored()
    ensures Behaviour(START, BeforeMove())
    ensures var w := Run(START, BeforeMove()); Inv(w) && FirstStillToCome(w, "zone-a") && HasDesk(w)
  {
    var w := BothClaim();
    BothClaimed(w);
    var w' := SecondStoresIt(w);
    RunOn(START, FirstClaims() + SecondTakesOver(), SecondStores());
    StartIsInitial();
    ReachableInv(START, BeforeMove());
  }

  /**
   * The run: every request is answered and every one of its VMs is asked for in the zone then wanted, yet
   * the second VM ends out of the pool, with no worker, under a binding whose object names the first.
   */
  lemma LateSubmissionLeavesBehind()
    ensures Initial(START) && Behaviour(START, BeforeMove())
    ensures var move := Rewrite(Moved(Run(START, BeforeMove()), "zone-b"));
            var run := (BeforeMove() + [move]) + FirstComesLate();
            && Behaviour(START, run)
            && var w := Run(START, run);
            LeftBehind(w, "vm-b") && Names(w.stored, "b", "vm-a")
  {
    StartIsInitial();
    DeskIsStored();
    var w := Run(START, BeforeMove());
    var move := Rewrite(Moved(w, "zone-b"));
    PlacementMoves(w);
    OneStep(w, move);
    RunOn(START, BeforeMove(), [move]);
    FirstIsFooled(BeforeMove() + [move]);
    RunOn(START, BeforeMove() + [move], FirstComesLate());
  }

  /** The late worker where the placement has not moved: it is given its binding's desk. */
  lemma FirstAdopts(w: World)
    requires FirstStillToCome(w, "zone-a") && HasDesk(w)
    ensures var working := Working(0, 0, Vm("vm-a"), "");
            Behaviour(w, working) && Run(w, working) == Worked(w, 0, 0, "zone-a", Vm("vm-a"), "")
    ensures var held := Worked(w, 0, 0, "zone-a", Vm("vm-a"), "");
            Doubled(held, 0) && Enabled(held, WritePersist(0, S.Delivered)) && StoredIn(held.pool, held.stored, "vm-a")
                && TrueUnwritten(held, 0)
  {
    PlacementIs(w.stored.value, "zone-a");
    WorksUndisturbed(w, 0, 0, "zone-a", Vm("vm-a"), "");
  }

  /**
   * Without the move, the late worker is given the stored VM itself, which is in both places for as long as
   * the worker holds it. The persist call answers true, and the VM is left where it was.
   */
  lemma LateSubmissionAdopts()
    ensures var run := BeforeMove() + Working(0, 0, Vm("vm-a"), "");
            && Behaviour(START, run) && Doubled(Run(START, run), 0)
                && Enabled(Run(START, run), WritePersist(0, S.Delivered))
            && var w := PersistWrite(Run(START, run), 0, S.Delivered);
            !Holds(w.workers[0]) && StoredIn(w.pool, w.stored, "vm-a")
  {
    DeskIsStored();
    var w := Run(START, BeforeMove());
    FirstAdopts(w);
    RunOn(START, BeforeMove(), Working(0, 0, Vm("vm-a"), ""));
    MissedPersist(Worked(w, 0, 0, "zone-a", Vm("vm-a"), ""), 0, S.Delivered);
  }
}
