/** VM conservation over whole runs: each VM out of the pool is in exactly one place, and when it is not. */
module VmConservation {
  import opened Prelude
  import opened Sessions
  import opened VmPool
  import opened VmProtocol
  import opened VmInvariants
  import opened VmGuarantees
  import opened VmPlaces
  import opened VmExclusivity

  // ---- over whole runs ----

  /** No step of the run finds the VM again. */
  ghost predicate NotFound(w: World, actions: seq<Action>, vm: string)
    requires Behaviour(w, actions)
    decreases |actions|
  {
    actions == [] || (!Recovery(w, actions[0], vm) && NotFound(Step(w, actions[0]), actions[1..], vm))
  }

  /** Some step of the run leaves the VM behind, and no later one finds it again. */
  ghost predicate LostAlong(w: World, actions: seq<Action>, vm: string)
    requires Behaviour(w, actions)
    decreases |actions|
  {
    actions != [] &&
    var next := Step(w, actions[0]);
    (LostAlong(next, actions[1..], vm) || (Mishap(w, actions[0], vm) && NotFound(next, actions[1..], vm)))
  }

  lemma {:induction false} LeftBehindAfter(w: World, actions: seq<Action>, vm: string)
    requires Inv(w) && Behaviour(w, actions)
    ensures LeftBehind(Run(w, actions), vm) <==>
            LostAlong(w, actions, vm) || (LeftBehind(w, vm) && NotFound(w, actions, vm))
    decreases |actions|
  {
    if actions != [] {
      StepKeeps(w, actions[0]);
      LeftBehindByMishap(w, actions[0], vm);
      LeftBehindAfter(Step(w, actions[0]), actions[1..], vm);
    }
  }

  /** The VM the worker holds stays on the object to the end of the run. */
  ghost predicate StaysDoubled(w: World, actions: seq<Action>, t: nat)
    requires Behaviour(w, actions)
    decreases |actions|
  {
    actions == [] || (!Parts(w, actions[0], t) && StaysDoubled(Step(w, actions[0]), actions[1..], t))
  }

  /** Some step of the run makes the worker hold what the object shows, and no later one parts the two. */
  ghost predicate DoubledAlong(w: World, actions: seq<Action>, t: nat)
    requires Behaviour(w, actions)
    decreases |actions|
  {
    actions != [] &&
    var next := Step(w, actions[0]);
    (DoubledAlong(next, actions[1..], t) || (Doubles(w, actions[0], t) && StaysDoubled(next, actions[1..], t)))
  }

  lemma {:induction false} DoubledAfter(w: World, actions: seq<Action>, t: nat)
    requires Inv(w) && Behaviour(w, actions)
    ensures Doubled(Run(w, actions), t) <==>
            DoubledAlong(w, actions, t) || (Doubled(w, t) && StaysDoubled(w, actions, t))
    decreases |actions|
  {
    if actions != [] {
      StepKeeps(w, actions[0]);
      DoubledByStep(w, actions[0], t);
      DoubledAfter(Step(w, actions[0]), actions[1..], t);
    }
  }

  /**
   * VM conservation, after any run. A VM out of the idle pool and not in release is with a worker of its
   * binding or on the object under its binding, unless a mishap left it behind and nothing has found it
   * since. It is with one worker at most. And it is in both places exactly if its worker was given a VM the
   * object named already, or another writer named the one it held, and nothing has parted the two since.
   */
  lemma VmConservation(w0: World, actions: seq<Action>, vm: string)
    requires Initial(w0) && Behaviour(w0, actions)
    ensures var w := Run(w0, actions);
            && (IsAssigned(w.pool, vm) && !WithAWorker(w, vm) && !StoredIn(w.pool, w.stored, vm) <==>
                LostAlong(w0, actions, vm))
            && (forall t, u :: t in w.workers && u in w.workers ==>
                  HasIt(w.workers[t], w.pool.labels, vm) && HasIt(w.workers[u], w.pool.labels, vm) ==> t == u)
            && (WithAWorker(w, vm) && StoredIn(w.pool, w.stored, vm) <==>
                exists t :: t in w.workers && HasIt(w.workers[t], w.pool.labels, vm) && DoubledAlong(w0, actions, t))
  {
    ReachableInv(w0, actions);
    InitialInv(w0);
    LeftBehindAfter(w0, actions, vm);
    forall t ensures Doubled(Run(w0, actions), t) <==> DoubledAlong(w0, actions, t) {
      DoubledAfter(w0, actions, t);
    }
    BothPlaces(Run(w0, actions), vm);
  }

  lemma BothPlaces(w: World, vm: string)
    ensures WithAWorker(w, vm) && StoredIn(w.pool, w.stored, vm) <==>
            exists t :: t in w.workers && HasIt(w.workers[t], w.pool.labels, vm) && Doubled(w, t)
  {
    if WithAWorker(w, vm) && StoredIn(w.pool, w.stored, vm) {
      var t :| t in w.workers && HasIt(w.workers[t], w.pool.labels, vm);
      assert Doubled(w, t);
    }
  }

  // ---- handing back ----

  /** The object goes on naming the VM that is to be handed back. */
  ghost predicate StaysShown(w: World, actions: seq<Action>, t: nat)
    requires Behaviour(w, actions)
    decreases |actions|
  {
    actions == [] || (!Resolves(w, actions[0], t) && StaysShown(Step(w, actions[0]), actions[1..], t))
  }

  /**
   * Some step of the run is another writer's that puts the worker's VM on the object after it looked, and
   * nothing resolves that.
   */
  ghost predicate ShownAlong(w: World, actions: seq<Action>, t: nat)
    requires Behaviour(w, actions)
    decreases |actions|
  {
    actions != [] &&
    var next := Step(w, actions[0]);
    (ShownAlong(next, actions[1..], t) || (ShowsAgain(w, actions[0], t) && StaysShown(next, actions[1..], t)))
  }

  lemma {:induction false} ShownAfter(w: World, actions: seq<Action>, t: nat)
    requires Inv(w) && Behaviour(w, actions)
    ensures ShownAgain(Run(w, actions), t) <==>
            ShownAlong(w, actions, t) || (ShownAgain(w, t) && StaysShown(w, actions, t))
    decreases |actions|
  {
    if actions != [] {
      StepKeeps(w, actions[0]);
      ShownAgainByStep(w, actions[0], t);
      ShownAfter(Step(w, actions[0]), actions[1..], t);
    }
  }

  /**
   * A false answer never makes a worker release the VM its session shows by the worker's own doing: after any
   * run, the hand-back that follows it releases a VM on the object exactly if another writer put that VM there
   * after the worker's last look.
   */
  lemma HandBackSparesTheStored(w0: World, actions: seq<Action>, t: nat, vm: string)
    requires Initial(w0) && Behaviour(w0, actions) && Enabled(Run(w0, actions), HandBack(t, true))
    requires IsAssigned(Run(w0, actions).pool, vm)
    ensures var w := Run(w0, actions);
            && (StoredIn(w.pool, w.stored, vm) && !IsAssigned(Step(w, HandBack(t, true)).pool, vm) <==>
                HasIt(w.workers[t], w.pool.labels, vm) && ShownAlong(w0, actions, t))
  {
    ReachableInv(w0, actions);
    InitialInv(w0);
    ShownAfter(w0, actions, t);
    HandBackReleases(Run(w0, actions), t, vm);
  }

  /** A rejected VM that is released, on the other hand, is the one the session shows wherever the object names it. */
  lemma RejectionMayHitTheStored(w0: World, actions: seq<Action>, t: nat, name: string, zone: string, message: string)
    requires Initial(w0) && Behaviour(w0, actions) && Enabled(Run(w0, actions), Misplaced(t, name, zone, message, true))
    ensures var w := Run(w0, actions); var w' := Step(w, Misplaced(t, name, zone, message, true));
            && !IsAssigned(w'.pool, name)
            && (StoredIn(w'.pool, w'.stored, name) <==> Names(w.stored, w.workers[t].binding, name))
  {
    ReachableInv(w0, actions);
    RejectionReleases(Run(w0, actions), t, name, zone, message, name);
  }

  // ---- runs without mishaps and without doublings ----

  /** No VM is left behind in any state of the run. */
  ghost predicate AlwaysAccounted(w: World, actions: seq<Action>)
    requires Behaviour(w, actions)
    decreases |actions|
  {
    (forall vm :: !LeftBehind(w, vm)) && (actions == [] || AlwaysAccounted(Step(w, actions[0]), actions[1..]))
  }

  ghost predicate MishapFree(w: World, actions: seq<Action>)
    requires Behaviour(w, actions)
    decreases |actions|
  {
    actions == [] || ((forall vm :: !Mishap(w, actions[0], vm)) && MishapFree(Step(w, actions[0]), actions[1..]))
  }

  lemma {:induction false} AccountedWhileMishapFree(w: World, actions: seq<Action>)
    requires Inv(w) && Behaviour(w, actions) && forall vm :: !LeftBehind(w, vm)
    ensures AlwaysAccounted(w, actions) <==> MishapFree(w, actions)
    decreases |actions|
  {
    if actions != [] {
      StepKeeps(w, actions[0]);
      forall vm ensures LeftBehind(Step(w, actions[0]), vm) <==> Mishap(w, actions[0], vm) {
        LeftBehindByMishap(w, actions[0], vm);
      }
      if forall vm :: !LeftBehind(Step(w, actions[0]), vm) {
        AccountedWhileMishapFree(Step(w, actions[0]), actions[1..]);
      }
    }
  }

  /** A run leaves no VM behind at any moment exactly if none of its steps is a mishap. */
  lemma ConservedExactlyIfMishapFree(w0: World, actions: seq<Action>)
    requires Initial(w0) && Behaviour(w0, actions)
    ensures AlwaysAccounted(w0, actions) <==> MishapFree(w0, actions)
  {
    InitialInv(w0);
    AccountedWhileMishapFree(w0, actions);
  }

  /** In no state of the run does a worker hold what the object shows for its binding. */
  ghost predicate AlwaysExclusive(w: World, actions: seq<Action>)
    requires Behaviour(w, actions)
    decreases |actions|
  {
    (forall t :: !Doubled(w, t)) && (actions == [] || AlwaysExclusive(Step(w, actions[0]), actions[1..]))
  }

  ghost predicate NeverDoubles(w: World, actions: seq<Action>)
    requires Behaviour(w, actions)
    decreases |actions|
  {
    actions == [] || ((forall t :: !Doubles(w, actions[0], t)) && NeverDoubles(Step(w, actions[0]), actions[1..]))
  }

  lemma {:induction false} ExclusiveWhileNeverDoubling(w: World, actions: seq<Action>)
    requires Inv(w) && Behaviour(w, actions) && forall t :: !Doubled(w, t)
    ensures AlwaysExclusive(w, actions) <==> NeverDoubles(w, actions)
    decreases |actions|
  {
    if actions != [] {
      StepKeeps(w, actions[0]);
      forall t ensures Doubled(Step(w, actions[0]), t) <==> Doubles(w, actions[0], t) {
        DoubledByStep(w, actions[0], t);
      }
      if forall t :: !Doubled(Step(w, actions[0]), t) {
        ExclusiveWhileNeverDoubling(Step(w, actions[0]), actions[1..]);
      }
    }
  }

  /**
   * Every assigned VM is either with a worker of its binding or on the object under it, and no worker holds
   * what the object shows.
   */
  ghost predicate InOnePlace(w: World) {
    && (forall vm :: IsAssigned(w.pool, vm) ==> (WithAWorker(w, vm) <==> !StoredIn(w.pool, w.stored, vm)))
    && (forall t :: !Doubled(w, t))
  }

  ghost predicate AlwaysInOnePlace(w: World, actions: seq<Action>)
    requires Behaviour(w, actions)
    decreases |actions|
  {
    InOnePlace(w) && (actions == [] || AlwaysInOnePlace(Step(w, actions[0]), actions[1..]))
  }

  lemma OnePlace(w: World)
    ensures InOnePlace(w) <==> (forall vm :: !LeftBehind(w, vm)) && forall t :: !Doubled(w, t)
  {
    if (forall vm :: !LeftBehind(w, vm)) && forall t :: !Doubled(w, t) {
      forall vm | IsAssigned(w.pool, vm) ensures WithAWorker(w, vm) <==> !StoredIn(w.pool, w.stored, vm) {
        BothPlaces(w, vm);
        assert !LeftBehind(w, vm);
      }
    }
    if InOnePlace(w) {
      forall vm ensures !LeftBehind(w, vm) {
      }
    }
  }

  lemma {:induction false} OnePlaceAlong(w: World, actions: seq<Action>)
    requires Behaviour(w, actions)
    ensures AlwaysInOnePlace(w, actions) <==> AlwaysAccounted(w, actions) && AlwaysExclusive(w, actions)
    decreases |actions|
  {
    OnePlace(w);
    if actions != [] {
      OnePlaceAlong(Step(w, actions[0]), actions[1..]);
    }
  }

  /**
   * At every moment of a run each assigned VM is in exactly one place, if and only if no step is a mishap and
   * none doubles.
   */
  lemma ExactlyOnePlace(w0: World, actions: seq<Action>)
    requires Initial(w0) && Behaviour(w0, actions)
    ensures AlwaysInOnePlace(w0, actions) <==> MishapFree(w0, actions) && NeverDoubles(w0, actions)
  {
    InitialInv(w0);
    ConservedExactlyIfMishapFree(w0, actions);
    ExclusiveWhileNeverDoubling(w0, actions);
    OnePlaceAlong(w0, actions);
  }
}
