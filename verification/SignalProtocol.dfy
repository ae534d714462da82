/**
 * Recorders and reconcile passes as they interleave: each reads the signal map, changes its copy and writes
 * the whole copy back through the retry loop, by when the object may have moved on, to another binding too.
 */
module SignalProtocol {
  import opened Prelude
  import opened Sessions
  import opened StatusPatch
  import opened Signals
  import S = Serialisability

  /** One `record_assistant_session_signal` call; `read` is the map it saw, None until it looked. */
  datatype Recorder = Recorder(name: string, payload: Option<Signal>, read: Option<SignalMap>)

  /**
   * `recorders` keeps every call ever begun; `passes` the map each reconcile pass last saw; `minted` every
   * binding id drawn.
   */
  datatype World = World(api: S.World, recorders: map<nat, Recorder>, passes: map<nat, SignalMap>, minted: set<string>,
      initially: set<Signal>)

  datatype Action =
    | Mint(binding: string)
    | BeginRecord(recorder: nat, name: string, payload: Option<Signal>, source: string)
    | ReadSignals(recorder: nat)
    | Record(recorder: nat, call: nat)
    | ReadForPass(pass: nat)
    | WriteRemaining(pass: nat, consumed: set<string>, call: nat, patch: Patch)
    | Update(call: nat, patch: Patch)
    | Request(request: S.Action)

  /** A signal somebody began to record, or that was there from the start. */
  ghost predicate Known(w: World, signal: Signal) {
    signal in w.initially || exists r :: r in w.recorders && w.recorders[r].payload == Some(signal)
  }

  ghost predicate Named(w: World, b: string) {
    exists signal :: Known(w, signal) && signal.bindingId == b
  }

  ghost predicate AllKnown(w: World, signals: SignalMap) {
    forall name :: name in signals ==> Known(w, signals[name])
  }

  /**
   * A fresh id is one that nobody drew before and no signal names; a signal may name any other id, drawn or
   * not, or none. A pass
   * writes back what it saw less what it consumed, with whatever else; other updates name no signals; and
   * writers outside this code may put any signal back, but make up none.
   */
  ghost predicate Enabled(w: World, a: Action) {
    match a
    case Mint(b) => b !in w.minted && !Named(w, b)
    case BeginRecord(r, _, _, _) => r !in w.recorders
    case ReadSignals(r) => r in w.recorders && w.recorders[r].read.None?
    case Record(r, c) => r in w.recorders && w.recorders[r].read.Some? && c !in w.api.calls
    case ReadForPass(_) => true
    case WriteRemaining(p, consumed, c, patch) =>
      p in w.passes && c !in w.api.calls && patch.signals == Set(SignalsWithout(w.passes[p], consumed))
    case Update(c, patch) => c !in w.api.calls && patch.signals.Unset?
    case Request(request) =>
      S.Enabled(w.api, request) && !request.Start? && (request.OtherWrite? ==> AllKnown(w, SignalsOf(request.next)))
  }

  function RecordPatch(recorder: Recorder): Patch
    requires recorder.read.Some?
  {
    NOTHING.(signals := Set(WithSignal(recorder.read.value, recorder.name, recorder.payload)))
  }

  ghost function Step(w: World, a: Action): World
    requires Enabled(w, a)
  {
    match a
    case Mint(b) => w.(minted := w.minted + {b})
    case BeginRecord(r, name, payload, source) =>
        w.(recorders := w.recorders[r := Recorder(name, Sourced(payload, source), None)])
    case ReadSignals(r) => w.(recorders := w.recorders[r := w.recorders[r].(read := Some(SignalsOf(w.api.stored)))])
    case Record(r, c) => w.(api := S.Step(w.api, S.Start(c, RecordPatch(w.recorders[r]))))
    case ReadForPass(p) => w.(passes := w.passes[p := SignalsOf(w.api.stored)])
    case WriteRemaining(_, _, c, patch) => w.(api := S.Step(w.api, S.Start(c, patch)))
    case Update(c, patch) => w.(api := S.Step(w.api, S.Start(c, patch)))
    case Request(request) => w.(api := S.Step(w.api, request))
  }

  ghost predicate Behaviour(w: World, actions: seq<Action>)
    decreases |actions|
  {
    actions == [] || (Enabled(w, actions[0]) && Behaviour(Step(w, actions[0]), actions[1..]))
  }

  ghost function Run(w: World, actions: seq<Action>): World
    requires Behaviour(w, actions)
    decreases |actions|
  {
    if actions == [] then w else Run(Step(w, actions[0]), actions[1..])
  }

  /** No call yet; the signals there are, are those on the object or some of them. */
  ghost predicate Initial(w: World) {
    && w.api.calls == map[] && w.recorders == map[] && w.passes == map[]
    && SignalsOf(w.api.stored).Values <= w.initially
  }

  // ---- what every step keeps ----

  /** Every map anywhere, stored, held by a call or about to be written, is made of known signals. */
  ghost predicate Inv(w: World) {
    && AllKnown(w, SignalsOf(w.api.stored))
    && (forall c :: c in w.api.calls && w.api.calls[c].patch.signals.Set? ==>
        AllKnown(w, w.api.calls[c].patch.signals.value))
    && (forall c :: c in w.api.calls && w.api.calls[c].stage.Holding? ==>
        AllKnown(w, SignalsOf(w.api.calls[c].stage.snapshot)))
    && (forall r :: r in w.recorders && w.recorders[r].read.Some? ==> AllKnown(w, w.recorders[r].read.value))
    && (forall p :: p in w.passes ==> AllKnown(w, w.passes[p]))
  }

  /** What a status write decides to do about the signals: those named, those it read, or none. */
  lemma DecidedSignals(patch: Patch, stored: Option<Session>, now: Time)
    requires Decide(patch, stored, now).Write?
    ensures var signals := Decide(patch, stored, now).status.signals;
            signals == if patch.signals.Set? then patch.signals.value else if signals == map[] then map[]
                else SignalsOf(stored)
  {
  }

  /**
   * The object after the last request of a pass through the loop: as it was, with the signals named, with
   * those read, or with none.
   */
  lemma WriteBackSignals(api: S.World, c: nat, luck: S.Luck)
    requires S.Enabled(api, S.WriteBack(c, luck))
    ensures var api' := S.Step(api, S.WriteBack(c, luck)); var call := api.calls[c];
            && (api'.stored == api.stored
                || (call.patch.signals.Set? && SignalsOf(api'.stored) == call.patch.signals.value)
                || SignalsOf(api'.stored) == map[] || SignalsOf(api'.stored) == SignalsOf(call.stage.snapshot))
            && api'.calls.Keys == api.calls.Keys && !api'.calls[c].stage.Holding?
            && forall d :: d in api.calls ==>
                 api'.calls[d].patch == api.calls[d].patch && (d != c ==> api'.calls[d] == api.calls[d])
  {
    var call := api.calls[c];
    if Decide(call.patch, call.stage.snapshot, api.clock).Write? {
      DecidedSignals(call.patch, call.stage.snapshot, api.clock);
    }
  }

  /** Unless a call begins, the same signals are known. */
  lemma SameKnown(w: World, w': World)
    requires w'.recorders == w.recorders && w'.initially == w.initially
    ensures forall signal :: Known(w', signal) <==> Known(w, signal)
  {
  }

  lemma RequestKeeps(w: World, request: S.Action)
    requires Inv(w) && Enabled(w, Request(request))
    ensures Inv(Step(w, Request(request)))
  {
    SameKnown(w, Step(w, Request(request)));
    if request.WriteBack? {
      WriteBackKeeps(w, request.call, request.luck);
    }
  }

  lemma WriteBackKeeps(w: World, c: nat, luck: S.Luck)
    requires Inv(w) && Enabled(w, Request(S.WriteBack(c, luck)))
    ensures Inv(Step(w, Request(S.WriteBack(c, luck))))
  {
    SameKnown(w, Step(w, Request(S.WriteBack(c, luck))));
    WriteBackSignals(w.api, c, luck);
  }

  lemma RecorderKeeps(w: World, a: Action)
    requires Inv(w) && Enabled(w, a) && (a.BeginRecord? || a.ReadSignals?)
    ensures Inv(Step(w, a))
  {
    var w' := Step(w, a);
    forall signal | Known(w, signal) ensures Known(w', signal) {
      if signal !in w.initially {
        var r :| r in w.recorders && w.recorders[r].payload == Some(signal);
        assert r in w'.recorders && w'.recorders[r].payload == Some(signal);
      }
    }
    assert forall r :: r in w'.recorders && r in w.recorders ==> w'.recorders[r].payload == w.recorders[r].payload;
  }

  lemma StepKeeps(w: World, a: Action)
    requires Inv(w) && Enabled(w, a)
    ensures Inv(Step(w, a))
  {
    match a
    case BeginRecord(_, _, _, _) => RecorderKeeps(w, a);
    case ReadSignals(_) => RecorderKeeps(w, a);
    case Request(request) => RequestKeeps(w, request);
    case Record(r, _) =>
      SameKnown(w, Step(w, a));
      if w.recorders[r].payload.Some? {
        assert Known(w, w.recorders[r].payload.value);
      }
    case _ => SameKnown(w, Step(w, a));
  }

  lemma {:induction false} RunKeeps(w: World, actions: seq<Action>)
    requires Inv(w) && Behaviour(w, actions)
    ensures Inv(Run(w, actions))
    decreases |actions|
  {
    if actions != [] {
      StepKeeps(w, actions[0]);
      RunKeeps(Step(w, actions[0]), actions[1..]);
    }
  }

  lemma InitialInv(w: World)
    requires Initial(w)
    ensures Inv(w)
  {
    forall name | name in SignalsOf(w.api.stored) ensures Known(w, SignalsOf(w.api.stored)[name]) {
      assert SignalsOf(w.api.stored)[name] in SignalsOf(w.api.stored).Values;
    }
  }

  // ---- the results ----

  /**
   * Nothing is ever invented: whatever was written back, and however late, each signal on the object was
   * recorded by a call.
   */
  lemma SignalsAreRecorded(w0: World, actions: seq<Action>, name: string)
    requires Initial(w0) && Behaviour(w0, actions) && name in SignalsOf(Run(w0, actions).api.stored)
    ensures var w := Run(w0, actions);
            Known(w, SignalsOf(w.api.stored)[name])
  {
    InitialInv(w0);
    RunKeeps(w0, actions);
  }

  /**
   * Record calls are never forgotten, nor their payloads changed; ids stay drawn, and the first signals stay
   * the first.
   */
  lemma {:induction false} HistoryGrows(w: World, actions: seq<Action>)
    requires Behaviour(w, actions)
    ensures var w' := Run(w, actions);
            && w.recorders.Keys <= w'.recorders.Keys && w'.initially == w.initially && w.minted <= w'.minted
            && forall r :: r in w.recorders ==> w'.recorders[r].payload == w.recorders[r].payload
    decreases |actions|
  {
    if actions != [] {
      HistoryGrows(Step(w, actions[0]), actions[1..]);
    }
  }

  /** What was known stays known. */
  lemma KnownStays(w: World, actions: seq<Action>, signal: Signal)
    requires Behaviour(w, actions) && Known(w, signal)
    ensures Known(Run(w, actions), signal)
  {
    HistoryGrows(w, actions);
    if r :| r in w.recorders && w.recorders[r].payload == Some(signal) {
      assert Run(w, actions).recorders[r].payload == Some(signal);
    }
  }

  /** An id that a signal named before it was drawn is never drawn. */
  lemma {:induction false} NamedIsNeverDrawn(w: World, actions: seq<Action>, signal: Signal)
    requires Behaviour(w, actions) && Known(w, signal) && signal.bindingId !in w.minted
    ensures signal.bindingId !in Run(w, actions).minted
    decreases |actions|
  {
    if actions != [] {
      assert Named(w, signal.bindingId);
      KnownStays(w, [actions[0]], signal);
      assert Run(w, [actions[0]]) == Run(Step(w, actions[0]), []) == Step(w, actions[0]);
      NamedIsNeverDrawn(Step(w, actions[0]), actions[1..], signal);
    }
  }

  /**
   * Signal fencing: take any moment `middle` at which an id was not drawn yet. A signal that is accepted,
   * however much later, while the session is on the binding drawn with it, was recorded by a call begun after
   * that moment. No map read or patch prepared on an earlier binding, however late it is written, feeds it.
   */
  lemma AcceptedSignalsAreFenced(w0: World, before: seq<Action>, after: seq<Action>, name: string,
      generation: Option<int>)
    returns (recorder: nat)
    requires Initial(w0) && Behaviour(w0, before) && Behaviour(Run(w0, before), after)
    requires var w := Run(Run(w0, before), after); var current := OrEmpty(w.api.stored).status.binding.id;
             && current !in Run(w0, before).minted && current in w.minted
             && name in SignalsOf(w.api.stored) && Accepts(SignalsOf(w.api.stored)[name], current, generation)
    ensures var middle := Run(w0, before); var w := Run(middle, after);
            && recorder !in middle.recorders && recorder in w.recorders
            && w.recorders[recorder].payload == Some(SignalsOf(w.api.stored)[name])
  {
    InitialInv(w0);
    RunKeeps(w0, before);
    var middle := Run(w0, before);
    RunKeeps(middle, after);
    HistoryGrows(middle, after);
    var w := Run(middle, after);
    var signal := SignalsOf(w.api.stored)[name];
    if Known(middle, signal) {
      NamedIsNeverDrawn(middle, after, signal);
    }
    assert Known(w, signal) && !Known(middle, signal);
    recorder :| recorder in w.recorders && w.recorders[recorder].payload == Some(signal);
  }
}
