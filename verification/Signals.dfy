/** Binding-scoped signals: one map on the session, written back whole from a read outside the retry loop. */
module Signals {
  import opened Prelude
  import opened Sessions
  import opened StatusPatch
  import opened ApiServer
  import opened StatusWriter

  type SignalMap = map<string, Signal>

  function SignalsOf(stored: Option<Session>): SignalMap {
    OrEmpty(stored).status.signals
  }

  /**
   * `binding_signal_matches`: the reconciler acts on the signal for this binding, and this release if one is
   * asked for.
   */
  predicate Accepts(signal: Signal, bindingId: string, releaseGeneration: Option<int>) {
    && bindingId != ""
    && signal.bindingId == bindingId
    && (releaseGeneration.Some? && releaseGeneration.value > 0 ==> signal.releaseGeneration == releaseGeneration)
  }

  /** It has to be for this binding, and a release asked for has to be the one it was sent for. */
  lemma AcceptsMeans(signal: Signal, bindingId: string, releaseGeneration: Option<int>)
    ensures Accepts(signal, bindingId, releaseGeneration) <==>
              && signal.bindingId == bindingId && bindingId != ""
              && (releaseGeneration == None || releaseGeneration.value <= 0
                  || signal.releaseGeneration == releaseGeneration)
  {
  }

  /** `signals_without`. */
  function SignalsWithout(signals: SignalMap, names: set<string>): SignalMap {
    signals - names
  }

  lemma SignalsWithoutMeans(signals: SignalMap, names: set<string>, name: string)
    ensures var rest := SignalsWithout(signals, names);
            && (name in rest <==> name in signals && name !in names)
            && (name in rest ==> rest[name] == signals[name])
  {
  }

  /** The map a recorder builds from the one it read: the signal set, or popped. */
  function WithSignal(signals: SignalMap, name: string, payload: Option<Signal>): SignalMap {
    if payload.Some? then signals[name := payload.value] else signals - {name}
  }

  function Sourced(payload: Option<Signal>, source: string): Option<Signal> {
    if payload.Some? && payload.value.source == "" then Some(payload.value.(source := source)) else payload
  }

  /** The map afterwards: the one name set, with its source filled in, or gone; every other name as it was. */
  ghost predicate Records(before: SignalMap, after: SignalMap, name: string, payload: Option<Signal>, source: string) {
    && (payload.None? ==> name !in after)
    && (payload.Some? ==>
          && name in after && after[name].source ==
              (if payload.value.source == "" then source else payload.value.source)
          && after[name] == payload.value.(source := after[name].source))
    && forall other :: other != name ==>
         (other in after <==> other in before) && (other in before && other in after ==> after[other] == before[other])
  }

  lemma WithSignalRecords(signals: SignalMap, name: string, payload: Option<Signal>, source: string)
    ensures Records(signals, WithSignal(signals, name, Sourced(payload, source)), name, payload, source)
  {
  }

  /**
   * `record_assistant_session_signal`: a status write of the map that was read, however old, with the one signal
   * changed. A call that returns has recorded it, if nobody else wrote after that read.
   */
  method RecordSignal(api: Server, name: string, payload: Option<Signal>, source: string)
    returns (outcome: Outcome, ghost effect: Effect, ghost readAt: nat)
    requires api.Valid()
    modifies api
    ensures api.Valid() && old(api.states) <= api.states && |old(api.states)| - 1 <= readAt <= effect.at < |api.states|
    ensures Accounted(api, NOTHING.(signals := Set(WithSignal(SignalsOf(api.states[readAt]), name,
                Sourced(payload, source)))), outcome, effect)
    ensures outcome.ConflictRaised? ==>
              |api.states| >= |old(api.states)| + 3 && api.requests == old(api.requests) + 3
    ensures !outcome.MutatorRaised?
    ensures effect.Landed? ==>
              && effect.at + 1 < |api.states| && api.states[effect.at].Some? && api.states[effect.at + 1].Some?
              && var before, after := api.states[effect.at].value, api.states[effect.at + 1].value;
              && Records(SignalsOf(api.states[readAt]), after.status.signals, name, payload, source)
              && before.status == after.status.(signals := before.status.signals)
    ensures outcome.Returned? && (forall i :: readAt <= i && i + 1 < |api.states| ==> i in api.own) ==>
              Records(SignalsOf(api.states[readAt]), SignalsOf(api.stored), name, payload, source)
  {
    var current := api.Get();
    readAt := |api.states| - 1;
    var signals := OrEmpty(current).status.signals;
    var stored := payload;
    if stored.Some? && stored.value.source == "" {
      stored := Some(stored.value.(source := source));
    }
    if stored.None? {
      signals := signals - {name};
    } else {
      signals := signals[name := stored.value];
    }
    ghost var own := api.own;
    outcome, effect := PatchStatus(api, NOTHING.(signals := Set(signals)));
    WithSignalRecords(SignalsOf(current), name, payload, source);
    OnlySignals(signals, api.states[effect.at], effect.now);
    if outcome.Returned? && forall i :: readAt <= i && i + 1 < |api.states| ==> i in api.own {
      OnlyOwn(api.states, own, api.own, readAt, effect);
    }
  }

  /** A write of these signals changes nothing else; and none is called for only where they are there already. */
  lemma OnlySignals(signals: SignalMap, stored: Option<Session>, now: Time)
    ensures Decide(NOTHING.(signals := Set(signals)), stored, now) ==
            if SignalsOf(stored) == signals then ReturnCurrent else Write(OrEmpty(stored).status.(signals := signals))
  {
  }

  /** Where nobody else writes, a call's one write, if it makes one, is of the version it read, and is the last. */
  lemma OnlyOwn(states: seq<Option<Session>>, before: set<nat>, own: set<nat>, readAt: nat, effect: Effect)
    requires readAt <= effect.at < |states| && own == before + (if effect.Landed? then {effect.at} else {})
    requires effect.Landed? ==> effect.at + 1 < |states|
    requires forall i :: i in before ==> i < readAt
    requires forall i :: readAt <= i && i + 1 < |states| ==> i in own
    ensures effect.at == readAt && |states| == readAt + if effect.Landed? then 2 else 1
  {
    assert readAt + 1 < |states| ==> readAt in own;
    assert readAt + 1 < |states| ==> |states| - 2 in own;
  }

  /**
   * A write that changes the binding id and does not name the signals clears them; one that keeps the id keeps
   * them.
   */
  lemma RebindClearsSignals(patch: Patch, stored: Option<Session>, now: Time)
    requires Decide(patch, stored, now).Write? && patch.signals.Unset?
    ensures var next := Decide(patch, stored, now).status;
            next.signals == if next.binding.id == OrEmpty(stored).status.binding.id then SignalsOf(stored) else map[]
  {
  }
}
