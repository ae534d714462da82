/**
 * Any number of concurrent status updates, interleaved at the grain of single API requests, against
 * one object that other writers change at will. Whatever the interleaving, the object is what running
 * the committed updates one after the other, each in one indivisible step, makes of it.
 */
module Serialisability {
  import opened Prelude
  import opened Sessions
  import opened StatusPatch
  import opened StatusWriter

  /** `Holding(snapshot, at)`: the call read `snapshot` when `at` commits had happened. */
  datatype Stage =
    | Ready
    | Holding(snapshot: Option<Session>, at: nat)
    | Ended(outcome: Outcome, at: nat, landed: bool)

  /** One call of the retry loop: `tries` conflicts so far, begun when `since` commits had happened. */
  datatype Call = Call(patch: Patch, tries: nat, since: nat, stage: Stage)

  datatype Commit = Update(call: nat, patch: Patch, now: Time) | Other(next: Option<Session>)

  datatype World = World(stored: Option<Session>, revision: nat, clock: Time, calls: map<nat, Call>,
      commits: seq<Commit>)

  /** What becomes of a replace request: answered, applied but the answer lost, or lost itself. */
  datatype Luck = Delivered | ReplyLost | RequestLost

  datatype Action =
    | Tick(elapsed: Time)
    | Start(call: nat, patch: Patch)
    | Read(call: nat)
    | WriteBack(call: nat, luck: Luck)
    | OtherWrite(next: Option<Session>)

  predicate Enabled(w: World, a: Action) {
    match a
    case Tick(elapsed) => elapsed >= 0.0
    case Start(c, _) => c !in w.calls
    case Read(c) => c in w.calls && w.calls[c].stage.Ready?
    case WriteBack(c, _) => c in w.calls && w.calls[c].stage.Holding?
    case OtherWrite(_) => true
  }

  function Stored(next: Option<Session>, revision: nat): Option<Session> {
    if next.Some? then Some(next.value.(resourceVersion := revision)) else None
  }

  function SetStage(w: World, c: nat, tries: nat, stage: Stage): World
    requires c in w.calls
  {
    w.(calls := w.calls[c := w.calls[c].(tries := tries, stage := stage)])
  }

  /** The replace of a call that decided to write `next` over the snapshot it holds. */
  function Replace(w: World, c: nat, next: Status, luck: Luck): World
    requires c in w.calls && w.calls[c].stage.Holding?
  {
    var call := w.calls[c];
    var snapshot := call.stage.snapshot;
    if luck.RequestLost? || snapshot.None? || w.stored.None? then
      SetStage(w, c, call.tries, Ended(RequestRaised, call.stage.at, false))
    else if w.stored.value.resourceVersion != snapshot.value.resourceVersion then
      if call.tries + 1 < MAX_CAS_RETRIES then SetStage(w, c, call.tries + 1, Ready)
      else SetStage(w, c, call.tries + 1, Ended(ConflictRaised, call.stage.at, false))
    else
      var written := Some(w.stored.value.(status := next, resourceVersion := w.revision + 1));
      SetStage(w, c, call.tries, Ended(if luck.Delivered? then Returned(written) else RequestRaised, |w.commits|, true))
      .(stored := written, revision := w.revision + 1, commits := w.commits + [Update(c, call.patch, w.clock)])
  }

  function Step(w: World, a: Action): World
    requires Enabled(w, a)
  {
    match a
    case Tick(elapsed) => w.(clock := w.clock + elapsed)
    case Start(c, patch) => w.(calls := w.calls[c := Call(patch, 0, |w.commits|, Ready)])
    case Read(c) => SetStage(w, c, w.calls[c].tries, Holding(w.stored, |w.commits|))
    case WriteBack(c, luck) =>
      var call := w.calls[c];
      (match Decide(call.patch, call.stage.snapshot, w.clock)
       case ReturnCurrent => SetStage(w, c, call.tries, Ended(Returned(call.stage.snapshot), call.stage.at, false))
       case Raise => SetStage(w, c, call.tries, Ended(MutatorRaised, call.stage.at, false))
       case Write(next) => Replace(w, c, next, luck))
    case OtherWrite(next) =>
      w.(stored := Stored(next, w.revision + 1), revision := w.revision + 1, commits := w.commits + [Other(next)])
  }

  ghost predicate Behaviour(w: World, actions: seq<Action>)
    decreases |actions|
  {
    actions == [] || (Enabled(w, actions[0]) && Behaviour(Step(w, actions[0]), actions[1..]))
  }

  function Run(w: World, actions: seq<Action>): World
    requires Behaviour(w, actions)
    decreases |actions|
  {
    if actions == [] then w else Run(Step(w, actions[0]), actions[1..])
  }

  /** An object, and no call yet. */
  ghost predicate Fresh(w: World) {
    w.calls == map[] && w.commits == [] && (w.stored.Some? ==> w.stored.value.resourceVersion <= w.revision)
  }

  // ---- the sequential reference ----

  /** One update, run alone: read, decide and write in one step. */
  function Atomically(patch: Patch, stored: Option<Session>, now: Time, revision: nat): Option<Session> {
    var decision := Decide(patch, stored, now);
    if decision.Write? && stored.Some? then Some(stored.value.(status := decision.status, resourceVersion := revision))
        else stored
  }

  /** The commits, run one after the other from `stored`. */
  function Replay(stored: Option<Session>, revision: nat, commits: seq<Commit>): Option<Session>
    decreases |commits|
  {
    if |commits| == 0 then stored else
    var before := Replay(stored, revision, commits[..|commits| - 1]);
    match commits[|commits| - 1]
    case Other(next) => Stored(next, revision + |commits|)
    case Update(_, patch, now) => Atomically(patch, before, now, revision + |commits|)
  }

  function UpdatesBy(c: nat, commits: seq<Commit>): nat {
    if |commits| == 0 then 0 else
    UpdatesBy(c, commits[..|commits| - 1])
        + if commits[|commits| - 1].Update? && commits[|commits| - 1].call == c then 1 else 0
  }

  // ---- what every step keeps ----

  ghost predicate SameVersionSameObject(w: World, snapshot: Option<Session>) {
    snapshot.Some? ==>
      && snapshot.value.resourceVersion <= w.revision
      && (w.stored.Some? && w.stored.value.resourceVersion == snapshot.value.resourceVersion ==> w.stored == snapshot)
  }

  /** The state after the first `at` commits. */
  ghost function StateAt(w0: World, w: World, at: nat): Option<Session>
    requires at <= |w.commits|
  {
    Replay(w0.stored, w0.revision, w.commits[..at])
  }

  ghost predicate CallKept(w0: World, w: World, c: nat)
    requires c in w.calls
  {
    var call := w.calls[c];
    && call.since <= |w.commits|
    && UpdatesBy(c, w.commits) == (if call.stage.Ended? && call.stage.landed then 1 else 0)
    && match call.stage
       case Ready =>
         |w.commits| >= call.since + call.tries && call.tries < MAX_CAS_RETRIES
       case Holding(snapshot, at) =>
         && call.since + call.tries <= at <= |w.commits| && call.tries < MAX_CAS_RETRIES
         && snapshot == StateAt(w0, w, at)
         && (at == |w.commits| ==> snapshot == w.stored)
         && SameVersionSameObject(w, snapshot)
       case Ended(outcome, at, landed) =>
         && call.since <= at <= |w.commits|
         && (outcome.Returned? ==> (if landed then at < |w.commits| && outcome.session == StateAt(w0, w, at + 1)
                                    else outcome.session == StateAt(w0, w, at)))
         && (outcome.ConflictRaised? ==> !landed && |w.commits| >= call.since + MAX_CAS_RETRIES)
         && (landed ==>
               && at < |w.commits| && w.commits[at].Update?
               && w.commits[at].call == c && w.commits[at].patch == call.patch)
  }

  ghost predicate Kept(w0: World, w: World) {
    && w.revision == w0.revision + |w.commits|
    && (w.stored.Some? ==> w.stored.value.resourceVersion <= w.revision)
    && (forall c :: c !in w.calls ==> UpdatesBy(c, w.commits) == 0)
    && w.stored == StateAt(w0, w, |w.commits|)
    && (forall c :: c in w.calls ==> CallKept(w0, w, c))
  }

  /** One more commit leaves every earlier state, and every count but its own author's, as they were. */
  lemma AppendCommit(w0: World, w: World, w': World, commit: Commit)
    requires w'.commits == w.commits + [commit]
    ensures forall at :: 0 <= at <= |w.commits| ==> StateAt(w0, w', at) == StateAt(w0, w, at)
    ensures forall c ::
              UpdatesBy(c, w'.commits) == UpdatesBy(c, w.commits) + if commit.Update? && commit.call == c then 1 else 0
  {
    forall at | 0 <= at <= |w.commits| ensures StateAt(w0, w', at) == StateAt(w0, w, at) {
      assert w'.commits[..at] == w.commits[..at];
    }
    assert w'.commits[..|w'.commits| - 1] == w.commits;
  }

  /** A call that does not move is not disturbed while the object stays as it is. */
  lemma QuietCall(w0: World, w: World, w': World, c: nat)
    requires c in w.calls && CallKept(w0, w, c)
    requires c in w'.calls && w'.calls[c] == w.calls[c]
    requires w'.stored == w.stored && w'.revision == w.revision && w'.commits == w.commits
    ensures CallKept(w0, w', c)
  {
  }

  /** A call that does not move is not disturbed by somebody else's commit. */
  lemma DisturbedCall(w0: World, w: World, w': World, commit: Commit, c: nat)
    requires c in w.calls && CallKept(w0, w, c) && SnapshotBehind(w, w', c)
    requires c in w'.calls && w'.calls[c] == w.calls[c]
    requires w'.commits == w.commits + [commit] && !(commit.Update? && commit.call == c)
    ensures CallKept(w0, w', c)
  {
    AppendCommit(w0, w, w', commit);
  }

  /** The version now stored is newer than any version a call holds. */
  ghost predicate SnapshotBehind(w: World, w': World, c: nat)
    requires c in w.calls
  {
    && w.revision < w'.revision
    && (w'.stored.Some? ==> w'.stored.value.resourceVersion == w'.revision)
  }

  /** A step that moves call `c` alone, and leaves the object alone. */
  lemma MoveKeeps(w0: World, w: World, c: nat, call: Call)
    requires Kept(w0, w)
    requires c !in w.calls ==> UpdatesBy(c, w.commits) == 0
    requires CallKept(w0, w.(calls := w.calls[c := call]), c)
    ensures Kept(w0, w.(calls := w.calls[c := call]))
  {
    var w' := w.(calls := w.calls[c := call]);
    forall d | d in w'.calls ensures CallKept(w0, w', d) {
      if d != c {
        QuietCall(w0, w, w', d);
      }
    }
  }

  /** A commit, by call `c` moving to `call` or by somebody else. */
  lemma CommitKeeps(w0: World, w: World, w': World, commit: Commit)
    requires Kept(w0, w)
    requires w'.commits == w.commits + [commit] && w'.revision == w.revision + 1
    requires w'.stored.Some? ==> w'.stored.value.resourceVersion == w'.revision
    requires w'.stored == Replay(w0.stored, w0.revision, w'.commits)
    requires w'.calls.Keys == w.calls.Keys
    requires forall c :: c in w.calls && !(commit.Update? && commit.call == c) ==> w'.calls[c] == w.calls[c]
    requires commit.Update? ==> commit.call in w.calls && CallKept(w0, w', commit.call)
    ensures Kept(w0, w')
  {
    AppendCommit(w0, w, w', commit);
    assert w'.commits[..|w'.commits|] == w'.commits;
    forall d | d in w'.calls ensures CallKept(w0, w', d) {
      if !(commit.Update? && commit.call == d) {
        DisturbedCall(w0, w, w', commit, d);
      }
    }
  }

  /** The sequential reference takes the same step as a commit over the current version. */
  lemma ReplayOneMore(w0: World, w: World, commit: Commit)
    requires Kept(w0, w)
    ensures Replay(w0.stored, w0.revision, w.commits + [commit]) ==
            match commit
            case Other(next) => Stored(next, w.revision + 1)
            case Update(_, patch, now) => Atomically(patch, w.stored, now, w.revision + 1)
  {
    assert (w.commits + [commit])[..|w.commits|] == w.commits == w.commits[..|w.commits|];
  }

  /** The call whose own commit this is. */
  lemma LandedCall(w0: World, w: World, w': World, c: nat, now: Time)
    requires c in w.calls && c in w'.calls && CallKept(w0, w, c) && w.calls[c].stage.Holding?
    requires w'.commits == w.commits + [Update(c, w.calls[c].patch, now)]
    requires w'.stored == Replay(w0.stored, w0.revision, w'.commits)
    requires w'.calls[c] == w.calls[c].(stage := w'.calls[c].stage)
    requires w'.calls[c].stage == Ended(Returned(w'.stored), |w.commits|, true)
             || w'.calls[c].stage == Ended(RequestRaised, |w.commits|, true)
    ensures CallKept(w0, w', c)
  {
    AppendCommit(w0, w, w', Update(c, w.calls[c].patch, now));
    assert w'.commits[..|w.commits| + 1] == w'.commits;
  }

  /** The version held is the version stored, so writing what was decided on the one is an atomic step on the other. */
  lemma LandingIsAtomic(w: World, c: nat, next: Status, luck: Luck)
    requires c in w.calls && w.calls[c].stage.Holding? && SameVersionSameObject(w, w.calls[c].stage.snapshot)
    requires Decide(w.calls[c].patch, w.calls[c].stage.snapshot, w.clock) == Write(next)
    requires !luck.RequestLost? && w.calls[c].stage.snapshot.Some? && w.stored.Some?
    requires w.stored.value.resourceVersion == w.calls[c].stage.snapshot.value.resourceVersion
    ensures Replace(w, c, next, luck).stored == Atomically(w.calls[c].patch, w.stored, w.clock, w.revision + 1)
  {
  }

  lemma LandingKeeps(w0: World, w: World, c: nat, next: Status, luck: Luck)
    requires Kept(w0, w) && c in w.calls && w.calls[c].stage.Holding?
    requires Replace(w, c, next, luck).stored == Atomically(w.calls[c].patch, w.stored, w.clock, w.revision + 1)
    requires !luck.RequestLost? && w.calls[c].stage.snapshot.Some? && w.stored.Some?
    requires w.stored.value.resourceVersion == w.calls[c].stage.snapshot.value.resourceVersion
    ensures Kept(w0, Replace(w, c, next, luck))
  {
    var commit := Update(c, w.calls[c].patch, w.clock);
    var w' := Replace(w, c, next, luck);
    ReplayOneMore(w0, w, commit);
    LandedCall(w0, w, w', c, w.clock);
    CommitKeeps(w0, w, w', commit);
  }

  lemma ReplaceKeeps(w0: World, w: World, c: nat, next: Status, luck: Luck)
    requires Kept(w0, w) && c in w.calls && w.calls[c].stage.Holding?
    requires Decide(w.calls[c].patch, w.calls[c].stage.snapshot, w.clock) == Write(next)
    ensures Kept(w0, Replace(w, c, next, luck))
  {
    var call := w.calls[c];
    assert CallKept(w0, w, c);
    if luck.RequestLost? || call.stage.snapshot.None? || w.stored.None? {
      MoveKeeps(w0, w, c, call.(stage := Ended(RequestRaised, call.stage.at, false)));
    } else if w.stored.value.resourceVersion == call.stage.snapshot.value.resourceVersion {
      LandingIsAtomic(w, c, next, luck);
      LandingKeeps(w0, w, c, next, luck);
    } else {
      ConflictKeeps(w0, w, c, next, luck);
    }
  }

  lemma ConflictKeeps(w0: World, w: World, c: nat, next: Status, luck: Luck)
    requires Kept(w0, w) && c in w.calls && w.calls[c].stage.Holding? && !luck.RequestLost?
    requires var snapshot := w.calls[c].stage.snapshot;
             snapshot.Some? && w.stored.Some? && w.stored.value.resourceVersion != snapshot.value.resourceVersion
    ensures Kept(w0, Replace(w, c, next, luck))
  {
    var call := w.calls[c];
    assert CallKept(w0, w, c);
    if call.tries + 1 < MAX_CAS_RETRIES {
      MoveKeeps(w0, w, c, call.(tries := call.tries + 1, stage := Ready));
    } else {
      MoveKeeps(w0, w, c, call.(tries := call.tries + 1, stage := Ended(ConflictRaised, call.stage.at, false)));
    }
  }

  lemma StepKeeps(w0: World, w: World, a: Action)
    requires Kept(w0, w) && Enabled(w, a)
    ensures Kept(w0, Step(w, a))
  {
    match a
    case Tick(_) =>
      forall c | c in w.calls ensures CallKept(w0, Step(w, a), c) {
        QuietCall(w0, w, Step(w, a), c);
      }
    case Start(c, patch) =>
      MoveKeeps(w0, w, c, Call(patch, 0, |w.commits|, Ready));
    case Read(c) =>
      assert CallKept(w0, w, c);
      MoveKeeps(w0, w, c, w.calls[c].(stage := Holding(w.stored, |w.commits|)));
    case WriteBack(c, luck) =>
      assert CallKept(w0, w, c);
      var call := w.calls[c];
      match Decide(call.patch, call.stage.snapshot, w.clock) {
        case ReturnCurrent => MoveKeeps(w0, w, c,
            call.(stage := Ended(Returned(call.stage.snapshot), call.stage.at, false)));
        case Raise => MoveKeeps(w0, w, c, call.(stage := Ended(MutatorRaised, call.stage.at, false)));
        case Write(next) => ReplaceKeeps(w0, w, c, next, luck);
      }
    case OtherWrite(next) =>
      ReplayOneMore(w0, w, Other(next));
      CommitKeeps(w0, w, Step(w, a), Other(next));
  }

  lemma {:induction false} RunKeeps(w0: World, w: World, actions: seq<Action>)
    requires Kept(w0, w) && Behaviour(w, actions)
    ensures Kept(w0, Run(w, actions))
    decreases |actions|
  {
    if actions != [] {
      StepKeeps(w0, w, actions[0]);
      RunKeeps(w0, Step(w, actions[0]), actions[1..]);
    }
  }

  // ---- every commit is a decision over the state it replaced ----

  ghost predicate DecidedAt(w0: World, commits: seq<Commit>, i: nat)
    requires i < |commits|
  {
    commits[i].Update? ==>
      var before := Replay(w0.stored, w0.revision, commits[..i]);
      before.Some? && Decide(commits[i].patch, before, commits[i].now).Write?
  }

  ghost predicate Decided(w0: World, commits: seq<Commit>) {
    forall i: nat :: i < |commits| ==> DecidedAt(w0, commits, i)
  }

  lemma DecidedAppend(w0: World, commits: seq<Commit>, commit: Commit)
    requires Decided(w0, commits)
    requires commit.Update? ==>
               var before := Replay(w0.stored, w0.revision, commits);
               before.Some? && Decide(commit.patch, before, commit.now).Write?
    ensures Decided(w0, commits + [commit])
  {
    forall i: nat | i < |commits + [commit]| ensures DecidedAt(w0, commits + [commit], i) {
      assert (commits + [commit])[..i] == commits[..i];
      if i < |commits| {
        assert DecidedAt(w0, commits, i);
      } else {
        assert commits[..i] == commits;
      }
    }
  }

  lemma StepDecided(w0: World, w: World, a: Action)
    requires Kept(w0, w) && Decided(w0, w.commits) && Enabled(w, a)
    ensures Decided(w0, Step(w, a).commits)
  {
    assert w.commits[..|w.commits|] == w.commits;
    match a
    case OtherWrite(next) => DecidedAppend(w0, w.commits, Other(next));
    case WriteBack(c, luck) =>
      assert CallKept(w0, w, c);
      var call := w.calls[c];
      var decision := Decide(call.patch, call.stage.snapshot, w.clock);
      if decision.Write? && Replace(w, c, decision.status, luck).commits != w.commits {
        assert w.stored == call.stage.snapshot;
        DecidedAppend(w0, w.commits, Update(c, call.patch, w.clock));
      }
    case _ =>
  }

  lemma {:induction false} RunDecided(w0: World, w: World, actions: seq<Action>)
    requires Kept(w0, w) && Decided(w0, w.commits) && Behaviour(w, actions)
    ensures Decided(w0, Run(w, actions).commits)
    decreases |actions|
  {
    if actions != [] {
      StepKeeps(w0, w, actions[0]);
      StepDecided(w0, w, actions[0]);
      RunDecided(w0, Step(w, actions[0]), actions[1..]);
    }
  }

  // ---- the results ----

  /** Every interleaving ends where the committed writes, run one at a time in commit order, end. */
  lemma Serialisable(w0: World, actions: seq<Action>)
    requires Fresh(w0) && Behaviour(w0, actions)
    ensures var w := Run(w0, actions); w.stored == Replay(w0.stored, w0.revision, w.commits)
  {
    RunKeeps(w0, w0, actions);
    var w := Run(w0, actions);
    assert w.commits[..|w.commits|] == w.commits;
  }

  /**
   * A finished call is in the commit order once if its write landed and not at all otherwise; what it
   * returned is the state its own commit made, or else a state the object really was in after the call began.
   */
  lemma EachCallOnce(w0: World, actions: seq<Action>, c: nat)
    requires Fresh(w0) && Behaviour(w0, actions)
    requires c in Run(w0, actions).calls && Run(w0, actions).calls[c].stage.Ended?
    ensures var w := Run(w0, actions); var call := w.calls[c];
            && UpdatesBy(c, w.commits) == (if call.stage.landed then 1 else 0)
            && call.since <= call.stage.at <= |w.commits|
            && (call.stage.outcome.Returned? && !call.stage.landed ==>
                  call.stage.outcome.session == Replay(w0.stored, w0.revision, w.commits[..call.stage.at]))
            && (call.stage.outcome.Returned? && call.stage.landed ==>
                  && call.stage.at < |w.commits|
                  && w.commits[call.stage.at].Update? && w.commits[call.stage.at].call == c
                  && call.stage.outcome.session == Replay(w0.stored, w0.revision, w.commits[..call.stage.at + 1]))
  {
    RunKeeps(w0, w0, actions);
    assert CallKept(w0, Run(w0, actions), c);
  }

  /** A call gives up with a conflict only after as many other commits as it has tries landed since it began. */
  lemma ConflictMeansProgress(w0: World, actions: seq<Action>, c: nat)
    requires Fresh(w0) && Behaviour(w0, actions)
    requires c in Run(w0, actions).calls && Run(w0, actions).calls[c].stage.Ended?
    requires Run(w0, actions).calls[c].stage.outcome.ConflictRaised?
    ensures var w := Run(w0, actions);
            |w.commits| >= w.calls[c].since + 3 && UpdatesBy(c, w.commits) == 0
  {
    RunKeeps(w0, w0, actions);
    assert CallKept(w0, Run(w0, actions), c);
  }

  /** A call that nobody disturbs and whose write is delivered does at once what it would do alone, and says so. */
  lemma UndisturbedCallLands(w: World, c: nat)
    requires Enabled(w, Read(c))
    ensures var w2 := Step(Step(w, Read(c)), WriteBack(c, Delivered));
            var patch, stage := w.calls[c].patch, w2.calls[c].stage;
            && w2.stored == Atomically(patch, w.stored, w.clock, w.revision + 1)
            && stage.Ended? && (stage.landed <==> w2.commits != w.commits)
            && stage.outcome == (match Decide(patch, w.stored, w.clock)
                 case ReturnCurrent => Returned(w.stored)
                 case Raise => MutatorRaised
                 case Write(_) => if w.stored.Some? then Returned(w2.stored) else RequestRaised)
            && (w2.commits == w.commits || w2.commits == w.commits + [Update(c, patch, w.clock)])
  {
    var w2 := Step(Step(w, Read(c)), WriteBack(c, Delivered));
    assert w2.commits == w.commits || |w2.commits| == |w.commits| + 1;
  }
}
