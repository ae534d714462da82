/** A reconciler that runs one pass of a session at a time: its workers are never fooled by somebody else's VM. */
module SerialPasses {
  import opened Prelude
  import opened Sessions
  import opened VmAssignment
  import opened VmPool
  import opened VmProtocol
  import opened VmInvariants
  import opened VmConservation
  import opened VmPlaces
  import opened VmExclusivity
  import S = Serialisability
  import L = VmLease

  /**
   * No pass begins a claim while another still claims or has an id to hand over; other writers may clear a
   * lease, but put none back.
   */
  predicate Serial(w: World, a: Action) {
    match a
    case BeginClaim(_, _, _, _) => w.claims == map[]
    case Rewrite(next) =>
      var shown := LeaseShown(OrEmpty(next).status.binding);
      RewriteEvents(w, next) != [] ==> !shown.value.Taken? && !shown.value.Owned?
    case _ => true
  }

  /** The worker has a VM still, or has still to ask for one. */
  predicate Undecided(worker: Worker) {
    worker.stage.Queued? || worker.stage.Admitted? || worker.stage.Placing? || Holds(worker)
  }

  ghost predicate OneClaim(claims: map<nat, Claim>) {
    forall c, d :: c in claims && d in claims ==> c == d
  }

  /** The lease of a won id that was not handed over yet is its own, unless it was cleared. */
  ghost predicate WonLeases(claims: map<nat, Claim>, log: seq<L.Event>) {
    forall c :: c in claims && claims[c].stage.Won? ==>
      var lease := L.LeaseOf(log, claims[c].binding);
      !lease.Owned? && (lease.Taken? ==> lease.attempt == claims[c].attempt)
  }

  /** A binding has no VM before its worker's outcome is written, nor did it when the worker looked. */
  ghost predicate NoVmYet(workers: map<nat, Worker>, log: seq<L.Event>) {
    forall t :: t in workers && Undecided(workers[t]) ==>
      && !L.LeaseOf(log, workers[t].binding).Owned?
      && (workers[t].stage.Persisting? && workers[t].stage.look.Some? ==>
            !PersistAnswer(workers[t].stage.look.value, workers[t].binding, workers[t].attempt, ASSIGNED))
  }

  ghost predicate SerialInv(w: World) {
    OneClaim(w.claims) && WonLeases(w.claims, w.log) && NoVmYet(w.workers, w.log)
  }

  /** A claim call is won only by its own write. */
  lemma WonByWriting(w: World, c: nat, luck: S.Luck)
    requires c in w.claims && w.claims[c].stage.Looking?
    requires ClaimAnswer(w.claims[c].stage.snapshot, w.claims[c].binding, w.claims[c].attempt) == None
    ensures var w' := ClaimWrite(w, c, luck);
            && (w'.log == w.log || (w.stored.Some? && w'.log == w.log + [ClaimEvent(w, w.claims[c])]))
            && (c in w'.claims && w'.claims[c].stage.Won? ==> w'.log != w.log)
  {
  }

  lemma SerialAfterClaim(w: World, c: nat, luck: S.Luck)
    requires Inv(w) && SerialInv(w) && c in w.claims && w.claims[c].stage.Looking?
    ensures SerialInv(ClaimWrite(w, c, luck))
  {
    var w' := ClaimWrite(w, c, luck);
    NoAnswerWithoutClaim(w, c);
    WonByWriting(w, c, luck);
    if w'.log != w.log {
      forall b ensures L.LeaseOf(w'.log, b) ==
          if b == w.claims[c].binding then L.After(ClaimEvent(w, w.claims[c])) else L.LeaseOf(w.log, b) {
        L.LeaseAppend(w.log, ClaimEvent(w, w.claims[c]), b);
      }
    }
  }

  /** What a persist call may add to the history. */
  lemma PersistLog(w: World, t: nat, luck: S.Luck)
    requires t in w.workers && w.workers[t].stage.Persisting? && w.workers[t].stage.look.Some?
    ensures PersistWrite(w, t, luck).log ==
            if PersistLands(w, t, luck) then w.log + [OutcomeEvent(w, w.workers[t])] else w.log
  {
  }

  /** The lease an outcome ends is that of no id still to be handed over. */
  lemma OutcomeIsNotWon(w: World, t: nat, luck: S.Luck, c: nat)
    requires Inv(w) && WonLeases(w.claims, w.log) && Enabled(w, WritePersist(t, luck)) && PersistLands(w, t, luck)
    requires c in w.claims && w.claims[c].stage.Won?
    ensures w.claims[c].binding != w.workers[t].binding
  {
    assert SnapshotOk(w.stored, w.revision, w.log, w.workers[t].stage.look.value);
    OutcomeAllowed(w, w.workers[t]);
  }

  lemma SerialAfterPersist(w: World, t: nat, luck: S.Luck)
    requires Inv(w) && SerialInv(w) && Enabled(w, WritePersist(t, luck))
    ensures SerialInv(PersistWrite(w, t, luck))
  {
    var w' := PersistWrite(w, t, luck);
    PersistLog(w, t, luck);
    if PersistLands(w, t, luck) {
      assert SnapshotOk(w.stored, w.revision, w.log, w.workers[t].stage.look.value);
      LandedPersist(w, t, luck);
      forall b ensures L.LeaseOf(w'.log, b) ==
          if b == w.workers[t].binding then L.After(OutcomeEvent(w, w.workers[t])) else L.LeaseOf(w.log, b) {
        L.LeaseAppend(w.log, OutcomeEvent(w, w.workers[t]), b);
      }
      forall c | c in w'.claims && w'.claims[c].stage.Won? ensures w'.claims[c].binding != w.workers[t].binding {
        OutcomeIsNotWon(w, t, luck, c);
      }
    } else {
      MissedPersist(w, t, luck);
    }
  }

  lemma SerialAfterRewrite(w: World, next: Option<Session>)
    requires SerialInv(w) && Enabled(w, Rewrite(next)) && Serial(w, Rewrite(next))
    ensures SerialInv(Step(w, Rewrite(next)))
  {
    if RewriteEvents(w, next) != [] {
      var e := RewriteEvents(w, next)[0];
      forall b ensures L.LeaseOf(w.log + [e], b) == if b == e.binding then L.After(e) else L.LeaseOf(w.log, b) {
        L.LeaseAppend(w.log, e, b);
      }
    } else {
      assert w.log + [] == w.log;
    }
  }

  /** What the worker reads shows no VM on its binding. */
  lemma SerialAfterLook(w: World, t: nat)
    requires Inv(w) && SerialInv(w) && Enabled(w, LookPersist(t))
    ensures SerialInv(Step(w, LookPersist(t)))
  {
    if w.stored.Some? && CurrentBinding(w).id != "" {
      CurrentLease(w);
    }
  }

  /** The steps that write nothing and let no worker look. */
  lemma SerialAfterQuiet(w: World, a: Action)
    requires Inv(w) && SerialInv(w) && Enabled(w, a) && Serial(w, a)
    requires a.Submit? || a.Admit? || a.ReadPlacement? || a.Abort? || a.Obtain? || a.Torn? || a.Misplaced?
             || a.Refused? || a.HandBack? || a.Finish?
    ensures SerialInv(Step(w, a))
  {
  }

  lemma SerialStep(w: World, a: Action)
    requires Inv(w) && SerialInv(w) && Enabled(w, a) && Serial(w, a)
    ensures SerialInv(Step(w, a))
  {
    match a
    case WriteClaim(c, luck) => SerialAfterClaim(w, c, luck);
    case WritePersist(t, luck) => SerialAfterPersist(w, t, luck);
    case Rewrite(next) => SerialAfterRewrite(w, next);
    case LookPersist(t) => SerialAfterLook(w, t);
    case Tick(_) =>
    case BeginClaim(_, _, _, _) =>
    case LookClaim(_) =>
    case Abandon(_) =>
    case ReleaseVm(_) =>
    case RemoveVm(_, _) =>
    case _ => SerialAfterQuiet(w, a);
  }

  // ---- no VM left behind ----

  /**
   * Nothing fails: the pool call does not raise over a claimed VM, no persist call of a VM raises, a VM
   * handed back or rejected is released, and other writers take only a VM off the object whose release was requested.
   */
  ghost predicate Smooth(w: World, a: Action)
    requires Enabled(w, a)
  {
    match a
    case Torn(_, _, _) => false
    case Misplaced(_, _, _, _, released) => released
    case WritePersist(t, luck) => Holds(w.workers[t]) ==> !PersistFails(w, t, luck)
    case HandBack(_, released) => released
    case Rewrite(next) => forall vm :: IsAssigned(w.pool, vm) && StoredIn(w.pool, w.stored, vm) ==>
        StoredIn(w.pool, next, vm)
    case _ => true
  }

  ghost predicate AlwaysSerial(w: World, actions: seq<Action>)
    requires Behaviour(w, actions)
    decreases |actions|
  {
    actions == [] || (Serial(w, actions[0]) && AlwaysSerial(Step(w, actions[0]), actions[1..]))
  }

  ghost predicate AlwaysSmooth(w: World, actions: seq<Action>)
    requires Behaviour(w, actions)
    decreases |actions|
  {
    actions == [] || (Smooth(w, actions[0]) && AlwaysSmooth(Step(w, actions[0]), actions[1..]))
  }

  /** In a serial run the answer true means that the worker's own write landed. */
  lemma TrueIsWritten(w: World, t: nat)
    requires SerialInv(w) && t in w.workers && w.workers[t].stage.Persisting? && w.workers[t].stage.look.Some?
    requires Holds(w.workers[t])
    ensures !TrueUnwritten(w, t)
  {
  }

  lemma {:induction false} SerialIsMishapFree(w: World, actions: seq<Action>)
    requires Inv(w) && SerialInv(w) && Behaviour(w, actions) && AlwaysSerial(w, actions) && AlwaysSmooth(w, actions)
    ensures MishapFree(w, actions)
    decreases |actions|
  {
    if actions != [] {
      var a := actions[0];
      StepKeeps(w, a);
      SerialStep(w, a);
      if a.WritePersist? && Holds(w.workers[a.task]) {
        TrueIsWritten(w, a.task);
      }
      SerialIsMishapFree(Step(w, a), actions[1..]);
    }
  }

  /** The lease of a worker that holds a VM is never owned, so the object does not name what a worker holds. */
  lemma SerialIsSingle(w: World, t: nat)
    requires Inv(w) && SerialInv(w)
    ensures !Doubled(w, t)
  {
    if t in w.workers && Holds(w.workers[t]) && w.stored.Some? && CurrentBinding(w).id != "" {
      CurrentLease(w);
    }
  }

  lemma {:induction false} SerialIsExclusive(w: World, actions: seq<Action>)
    requires Inv(w) && SerialInv(w) && Behaviour(w, actions) && AlwaysSerial(w, actions)
    ensures AlwaysExclusive(w, actions)
    decreases |actions|
  {
    forall t ensures !Doubled(w, t) {
      SerialIsSingle(w, t);
    }
    if actions != [] {
      StepKeeps(w, actions[0]);
      SerialStep(w, actions[0]);
      SerialIsExclusive(Step(w, actions[0]), actions[1..]);
    }
  }

  /** With one pass at a time, whatever fails, no worker ever holds a VM that the object shows for its binding. */
  lemma SerialNeverDoubles(w0: World, actions: seq<Action>)
    requires Initial(w0) && Behaviour(w0, actions) && AlwaysSerial(w0, actions)
    ensures AlwaysExclusive(w0, actions) && NeverDoubles(w0, actions)
  {
    InitialInv(w0);
    SerialIsExclusive(w0, actions);
    ExclusiveWhileNeverDoubling(w0, actions);
  }

  /**
   * With one pass at a time and nothing failing, each VM out of the idle pool and not in release is in exactly
   * one place at every moment, with one worker of its binding or on the object, however the calls interleave.
   */
  lemma SerialReconcilerConserves(w0: World, actions: seq<Action>)
    requires Initial(w0) && Behaviour(w0, actions) && AlwaysSerial(w0, actions) && AlwaysSmooth(w0, actions)
    ensures AlwaysAccounted(w0, actions) && AlwaysInOnePlace(w0, actions)
  {
    InitialInv(w0);
    SerialIsMishapFree(w0, actions);
    ConservedExactlyIfMishapFree(w0, actions);
    SerialNeverDoubles(w0, actions);
    ExactlyOnePlace(w0, actions);
  }

  lemma {:induction false} SerialRun(w: World, actions: seq<Action>)
    requires Inv(w) && SerialInv(w) && Behaviour(w, actions) && AlwaysSerial(w, actions)
    ensures Inv(Run(w, actions)) && SerialInv(Run(w, actions))
    decreases |actions|
  {
    if actions != [] {
      StepKeeps(w, actions[0]);
      SerialStep(w, actions[0]);
      SerialRun(Step(w, actions[0]), actions[1..]);
    }
  }

  /** A serial run, whatever fails in it: a persist call of a VM that answers true has stored that very VM. */
  lemma SerialAnswerIsOwnWrite(w0: World, actions: seq<Action>, t: nat, luck: S.Luck)
    requires Initial(w0) && Behaviour(w0, actions) && AlwaysSerial(w0, actions)
    requires var w := Run(w0, actions); Enabled(w, WritePersist(t, luck)) && Holds(w.workers[t])
    ensures var w := Run(w0, actions); var w' := PersistWrite(w, t, luck);
            w'.workers[t].stage.Finished? ==>
              CurrentBinding(w').id == w.workers[t].binding
                  && CurrentBinding(w').vmRef == w.workers[t].stage.result.vmRef
  {
    InitialInv(w0);
    SerialRun(w0, actions);
    var w := Run(w0, actions);
    TrueIsWritten(w, t);
    if PersistLands(w, t, luck) {
      assert SnapshotOk(w.stored, w.revision, w.log, w.workers[t].stage.look.value);
      LandedPersist(w, t, luck);
    } else {
      MissedIsNotFinished(w, t, luck);
    }
  }

  lemma MissedIsNotFinished(w: World, t: nat, luck: S.Luck)
    requires t in w.workers && w.workers[t].stage.Persisting? && w.workers[t].stage.look.Some? && Holds(w.workers[t])
    requires !PersistLands(w, t, luck) && !TrueUnwritten(w, t)
    ensures !PersistWrite(w, t, luck).workers[t].stage.Finished?
  {
  }
}
