/** The bounded ledger of released bindings: each write keeps the last twenty, and that is as good as keeping all. */
module ReleaseLedger {
  import opened Prelude
  import opened Sessions
  import opened StatusPatch
  import opened ApiServer
  import opened StatusWriter
  import S = Serialisability

  type Entry = ReleasedBinding

  const HISTORY_LIMIT: nat := 20

  function Without(ledger: seq<Entry>, id: string): seq<Entry> {
    if ledger == [] then [] else
      var last := ledger[|ledger| - 1];
      Without(ledger[..|ledger| - 1], id) + if last.bindingId == id then [] else [last]
  }

  /** `_upsert_released_binding_entry`. */
  function Upsert(ledger: seq<Entry>, entry: Entry): seq<Entry> {
    if entry.bindingId == "" then ledger
    else TakeLast(Without(ledger, entry.bindingId) + [entry], HISTORY_LIMIT)
  }

  function UpsertAll(ledger: seq<Entry>, entries: seq<Entry>): seq<Entry> {
    if entries == [] then ledger else Upsert(UpsertAll(ledger, entries[..|entries| - 1]), entries[|entries| - 1])
  }

  /** `released_binding`: the first entry with the id. */
  function Lookup(ledger: seq<Entry>, target: string): Option<Entry> {
    if target == "" || ledger == [] then None
    else if ledger[0].bindingId == target then Some(ledger[0])
    else Lookup(ledger[1..], target)
  }

  // ---- the unbounded history ----

  /** The same without a bound: an entry recorded again moves to the back. */
  function Record(history: seq<Entry>, entry: Entry): seq<Entry> {
    if entry.bindingId == "" then history else Without(history, entry.bindingId) + [entry]
  }

  function RecordAll(history: seq<Entry>, entries: seq<Entry>): seq<Entry> {
    if entries == [] then history else Record(RecordAll(history, entries[..|entries| - 1]), entries[|entries| - 1])
  }

  ghost predicate Absent(ledger: seq<Entry>, id: string) {
    forall i :: 0 <= i < |ledger| ==> ledger[i].bindingId != id
  }

  ghost predicate UniqueIds(ledger: seq<Entry>) {
    forall i, j :: 0 <= i < j < |ledger| ==> ledger[i].bindingId != ledger[j].bindingId
  }

  lemma UniqueAppend(ledger: seq<Entry>, entry: Entry)
    ensures UniqueIds(ledger + [entry]) <==> UniqueIds(ledger) && Absent(ledger, entry.bindingId)
  {
    var all := ledger + [entry];
    assert forall i :: 0 <= i < |ledger| ==> all[i] == ledger[i];
    assert all[|ledger|] == entry;
  }

  lemma {:induction false} WithoutSplits(left: seq<Entry>, right: seq<Entry>, id: string)
    ensures Without(left + right, id) == Without(left, id) + Without(right, id)
  {
    if right == [] {
      assert left + right == left;
    } else {
      assert (left + right)[..|left + right| - 1] == left + right[..|right| - 1];
      WithoutSplits(left, right[..|right| - 1], id);
    }
  }

  lemma {:induction false} WithoutIsAbsent(ledger: seq<Entry>, id: string, other: string)
    ensures Absent(Without(ledger, id), id)
    ensures Absent(ledger, other) ==> Absent(Without(ledger, id), other)
  {
    if ledger != [] {
      WithoutIsAbsent(ledger[..|ledger| - 1], id, other);
    }
  }

  lemma {:induction false} WithoutAbsent(ledger: seq<Entry>, id: string)
    requires Absent(ledger, id)
    ensures Without(ledger, id) == ledger
  {
    if ledger != [] {
      WithoutAbsent(ledger[..|ledger| - 1], id);
    }
  }

  /** Removing an id from a ledger without repetition removes one entry at most, and brings no repetition. */
  lemma {:induction false} WithoutUnique(ledger: seq<Entry>, id: string)
    requires UniqueIds(ledger)
    ensures |Without(ledger, id)| >= |ledger| - 1 && UniqueIds(Without(ledger, id))
  {
    if ledger != [] {
      var rest, last := ledger[..|ledger| - 1], ledger[|ledger| - 1];
      assert ledger == rest + [last];
      UniqueAppend(rest, last);
      WithoutUnique(rest, id);
      WithoutIsAbsent(rest, id, last.bindingId);
      UniqueAppend(Without(rest, id), last);
      if last.bindingId == id {
        WithoutAbsent(rest, id);
      }
    }
  }

  lemma RecordKeepsUnique(history: seq<Entry>, entry: Entry)
    requires UniqueIds(history)
    ensures UniqueIds(Record(history, entry))
  {
    WithoutUnique(history, entry.bindingId);
    WithoutIsAbsent(history, entry.bindingId, entry.bindingId);
    UniqueAppend(Without(history, entry.bindingId), entry);
  }

  lemma UniqueParts(left: seq<Entry>, right: seq<Entry>)
    requires UniqueIds(left + right)
    ensures UniqueIds(right)
  {
    assert forall i :: 0 <= i < |right| ==> right[i] == (left + right)[|left| + i];
  }

  /** One write to the bounded ledger is one record in the history, cut off once. */
  lemma UpsertOfTail(history: seq<Entry>, entry: Entry)
    requires UniqueIds(history)
    ensures Upsert(TakeLast(history, HISTORY_LIMIT), entry) == TakeLast(Record(history, entry), HISTORY_LIMIT)
  {
    var tail := TakeLast(history, HISTORY_LIMIT);
    var cut := history[..|history| - |tail|];
    assert history == cut + tail;
    UniqueParts(cut, tail);
    WithoutSplits(cut, tail, entry.bindingId);
    WithoutUnique(tail, entry.bindingId);
    assert cut == [] ==> Without(cut, entry.bindingId) == [];
    TailOfKept(Without(cut, entry.bindingId), Without(tail, entry.bindingId), entry, HISTORY_LIMIT);
  }

  lemma TailOfKept(left: seq<Entry>, right: seq<Entry>, entry: Entry, n: nat)
    requires |right| + 1 >= n || left == []
    ensures TakeLast(left + right + [entry], n) == TakeLast(right + [entry], n)
  {
    assert left + right + [entry] == left + (right + [entry]);
    TakeLastOfConcat(left, right + [entry], n);
  }

  lemma TakeLastOfConcat(left: seq<Entry>, right: seq<Entry>, n: nat)
    requires |right| >= n || left == []
    ensures TakeLast(left + right, n) == TakeLast(right, n)
  {
  }

  /** Cutting at every write gives what cutting the whole history once gives, and never an id twice. */
  lemma {:induction false} BoundedEqualsUnbounded(history: seq<Entry>, entries: seq<Entry>)
    requires UniqueIds(history)
    ensures UpsertAll(TakeLast(history, HISTORY_LIMIT), entries) == TakeLast(RecordAll(history, entries), HISTORY_LIMIT)
    ensures UniqueIds(RecordAll(history, entries)) && UniqueIds(UpsertAll(TakeLast(history, HISTORY_LIMIT), entries))
  {
    if entries != [] {
      var rest := entries[..|entries| - 1];
      BoundedEqualsUnbounded(history, rest);
      UpsertOfTail(RecordAll(history, rest), entries[|entries| - 1]);
      RecordKeepsUnique(RecordAll(history, rest), entries[|entries| - 1]);
    }
  }

  // ---- lookup ----

  /** The ids recorded, each counted once. */
  function Ids(entries: seq<Entry>): set<string> {
    if entries == [] then {} else
      var last := entries[|entries| - 1];
      Ids(entries[..|entries| - 1]) + if last.bindingId == "" then {} else {last.bindingId}
  }

  /** `i` is the last entry recorded for the id. */
  ghost predicate LatestFor(entries: seq<Entry>, id: string, i: nat) {
    && i < |entries| && entries[i].bindingId == id
    && forall j :: i < j < |entries| ==> entries[j].bindingId != id
  }

  /** Behind an id's latest entry the history holds one entry for every other id recorded since. */
  lemma {:induction false} WhereLatestIs(entries: seq<Entry>, id: string, i: nat)
    returns (before: seq<Entry>, behind: seq<Entry>)
    requires id != "" && LatestFor(entries, id, i)
    ensures RecordAll([], entries) == before + [entries[i]] + behind
    ensures Ids(behind) == Ids(entries[i + 1..]) && Absent(behind, "") && Absent(behind, id)
  {
    var n := |entries| - 1;
    var rest, last := entries[..n], entries[n];
    if i == n {
      before, behind := Without(RecordAll([], rest), id), [];
    } else {
      before, behind := WhereLatestIs(rest, id, i);
      assert entries[i + 1..] == rest[i + 1..] + [last];
      IdsAppend(rest[i + 1..], last);
      if last.bindingId != "" {
        before, behind := RecordBehind(before, entries[i], behind, last, id);
      } else {
        assert rest[i + 1..] + [last] == entries[i + 1..];
      }
    }
  }

  lemma IdsAppend(entries: seq<Entry>, last: Entry)
    ensures Ids(entries + [last]) == Ids(entries) + if last.bindingId == "" then {} else {last.bindingId}
  {
  }

  /** One more entry recorded behind an id's latest. */
  lemma RecordBehind(before: seq<Entry>, latest: Entry, behind: seq<Entry>, last: Entry, id: string)
    returns (before': seq<Entry>, behind': seq<Entry>)
    requires latest.bindingId == id && last.bindingId != id && last.bindingId != "" && Absent(behind, "")
    requires Absent(behind, id)
    ensures Without(before + [latest] + behind, last.bindingId) + [last] == before' + [latest] + behind'
    ensures Ids(behind') == Ids(behind) + {last.bindingId} && Absent(behind', "") && Absent(behind', id)
  {
    var kept := Without(behind, last.bindingId);
    before', behind' := Without(before, last.bindingId), kept + [last];
    WithoutAround(before, latest, behind, last.bindingId);
    assert before' + [latest] + kept + [last] == before' + [latest] + (kept + [last]);
    IdsBehind(behind, last, id);
  }

  lemma IdsBehind(behind: seq<Entry>, last: Entry, id: string)
    requires last.bindingId != id && last.bindingId != "" && Absent(behind, "") && Absent(behind, id)
    ensures var behind' := Without(behind, last.bindingId) + [last];
            Ids(behind') == Ids(behind) + {last.bindingId} && Absent(behind', "") && Absent(behind', id)
  {
    IdsWithout(behind, last.bindingId);
    WithoutIsAbsent(behind, last.bindingId, "");
    WithoutIsAbsent(behind, last.bindingId, id);
    IdsAppend(Without(behind, last.bindingId), last);
  }

  lemma WithoutAround(before: seq<Entry>, kept: Entry, behind: seq<Entry>, id: string)
    requires kept.bindingId != id
    ensures Without(before + [kept] + behind, id) == Without(before, id) + [kept] + Without(behind, id)
  {
    WithoutSplits(before + [kept], behind, id);
    WithoutSplits(before, [kept], id);
    WithoutAbsent([kept], id);
  }

  lemma {:induction false} IdsWithout(ledger: seq<Entry>, id: string)
    ensures Ids(Without(ledger, id)) == Ids(ledger) - {id}
  {
    if ledger != [] {
      var rest, last := ledger[..|ledger| - 1], ledger[|ledger| - 1];
      IdsWithout(rest, id);
      if last.bindingId != id {
        assert (Without(rest, id) + [last])[..|Without(rest, id)|] == Without(rest, id);
      } else {
        assert Without(rest, id) + [] == Without(rest, id);
      }
    }
  }

  /** In a ledger without repetition there are as many ids as entries. */
  lemma {:induction false} IdsCount(ledger: seq<Entry>)
    requires UniqueIds(ledger) && Absent(ledger, "")
    ensures |Ids(ledger)| == |ledger|
    ensures forall id :: id in Ids(ledger) ==> !Absent(ledger, id)
  {
    if ledger != [] {
      var rest, last := ledger[..|ledger| - 1], ledger[|ledger| - 1];
      assert ledger == rest + [last];
      UniqueAppend(rest, last);
      IdsCount(rest);
      assert last.bindingId !in Ids(rest);
      forall id | id in Ids(ledger) ensures !Absent(ledger, id) {
        if id in Ids(rest) {
          var i :| 0 <= i < |rest| && rest[i].bindingId == id;
          assert ledger[i].bindingId == id;
        } else {
          assert ledger[|rest|].bindingId == id;
        }
      }
    }
  }

  lemma {:induction false} LookupFinds(ledger: seq<Entry>, target: string, at: nat)
    requires target != "" && UniqueIds(ledger) && at < |ledger| && ledger[at].bindingId == target
    ensures Lookup(ledger, target) == Some(ledger[at])
  {
    if at > 0 {
      LookupFinds(ledger[1..], target, at - 1);
    }
  }

  lemma {:induction false} LookupMisses(ledger: seq<Entry>, target: string)
    requires Absent(ledger, target)
    ensures Lookup(ledger, target) == None
  {
    if ledger != [] {
      LookupMisses(ledger[1..], target);
    }
  }

  /** A recorded id is found, with its latest entry, exactly until twenty other ids have been recorded since. */
  lemma LookupReturnsLatest(entries: seq<Entry>, target: string, i: nat)
    requires target != "" && LatestFor(entries, target, i)
    ensures Lookup(UpsertAll([], entries), target) ==
            if |Ids(entries[i + 1..])| < 20 then Some(entries[i]) else None
  {
    var before, behind := WhereLatestIs(entries, target, i);
    BoundedEqualsUnbounded([], entries);
    var history := RecordAll([], entries);
    var ledger := UpsertAll([], entries);
    assert ledger == TakeLast(history, HISTORY_LIMIT);
    assert history[|before|] == entries[i];
    var cut := |history| - |ledger|;
    assert ledger == history[cut..];
    UniqueParts(before + [entries[i]], behind);
    IdsCount(behind);
    if |behind| < HISTORY_LIMIT {
      LookupFinds(ledger, target, |before| - cut);
    } else {
      assert ledger == behind[|behind| - |ledger|..];
      LookupMisses(ledger, target);
    }
  }

  // ---- concurrent recorders ----

  function RecordPatch(entry: Entry): Patch {
    NOTHING.(releasedBindingsMutator := Some((_: Session, ledger: seq<Entry>) => Next(Upsert(ledger, entry))))
  }

  /** `record_released_binding`: if it writes, it upserts into the very version it replaces. */
  method RecordReleasedBinding(api: Server, entry: Entry) returns (outcome: Outcome, ghost effect: Effect)
    requires api.Valid()
    modifies api
    ensures Accounted(api, RecordPatch(entry), outcome, effect) && !outcome.MutatorRaised?
    ensures outcome.ConflictRaised? ==>
              |api.states| >= |old(api.states)| + 3 && api.requests == old(api.requests) + 3
    ensures effect.Landed? ==>
              api.states[effect.at + 1].value.status == api.states[effect.at].value.status.(
                releasedBindings := Upsert(api.states[effect.at].value.status.releasedBindings, entry))
    ensures effect.Missed? && outcome.Returned? ==>
              Upsert(OrEmpty(outcome.session).status.releasedBindings, entry) ==
                  OrEmpty(outcome.session).status.releasedBindings
  {
    outcome, effect := PatchStatus(api, RecordPatch(entry));
    assert NextLedger(RecordPatch(entry), OrEmpty(api.states[effect.at])) ==
           Next(Upsert(OrEmpty(api.states[effect.at]).status.releasedBindings, entry));
  }

  /** The patch is that of a recorder of `entry`, and touches the ledger in no other way. */
  ghost predicate Records(patch: Patch, entry: Entry) {
    && patch.releasedBindingsMutator.Some?
    && forall session, ledger :: patch.releasedBindingsMutator.value(session, ledger) == Next(Upsert(ledger, entry))
  }

  /** The call's patch leaves the ledger alone. */
  predicate LedgerQuiet(patch: Patch) {
    patch.releasedBindingsMutator.None? && patch.releasedBindings.Unset?
  }

  function LedgerOf(stored: Option<Session>): seq<Entry> {
    OrEmpty(stored).status.releasedBindings
  }

  ghost predicate RecorderAt(w0: S.World, commits: seq<S.Commit>, recorders: map<nat, Entry>, i: nat)
    requires i < |commits|
  {
    match commits[i]
    case Update(c, patch, _) => if c in recorders then Records(patch, recorders[c]) else LedgerQuiet(patch)
    case Other(next) => next.Some? && LedgerOf(next) == LedgerOf(S.Replay(w0.stored, w0.revision, commits[..i]))
  }

  /** Every commit is a recorder's, or leaves the ledger as it finds it. */
  ghost predicate OnlyRecorders(w0: S.World, commits: seq<S.Commit>, recorders: map<nat, Entry>) {
    forall i: nat :: i < |commits| ==> RecorderAt(w0, commits, recorders, i)
  }

  /** The entries recorded, in commit order. */
  function EntriesOf(commits: seq<S.Commit>, recorders: map<nat, Entry>): seq<Entry> {
    if |commits| == 0 then [] else
    var last := commits[|commits| - 1];
    EntriesOf(commits[..|commits| - 1], recorders)
        + if last.Update? && last.call in recorders then [recorders[last.call]] else []
  }

  lemma UpsertAllAppend(ledger: seq<Entry>, entries: seq<Entry>, entry: Entry)
    ensures UpsertAll(ledger, entries + [entry]) == Upsert(UpsertAll(ledger, entries), entry)
  {
  }

  /** A recorder's commit upserts; any other update's commit does not touch the ledger. */
  lemma LedgerAfterUpdate(patch: Patch, stored: Option<Session>, now: Time, revision: nat, entry: Option<Entry>)
    requires stored.Some? && if entry.Some? then Records(patch, entry.value) else LedgerQuiet(patch)
    requires Decide(patch, stored, now).Write?
    ensures LedgerOf(S.Atomically(patch, stored, now, revision)) ==
            if entry.Some? then Upsert(LedgerOf(stored), entry.value) else LedgerOf(stored)
  {
  }

  lemma {:induction false} ReplayedLedger(w0: S.World, commits: seq<S.Commit>, recorders: map<nat, Entry>)
    requires OnlyRecorders(w0, commits, recorders) && S.Decided(w0, commits)
    ensures LedgerOf(S.Replay(w0.stored, w0.revision, commits)) ==
            UpsertAll(LedgerOf(w0.stored), EntriesOf(commits, recorders))
  {
    if |commits| > 0 {
      var n := |commits| - 1;
      var rest := commits[..n];
      forall i: nat | i < n ensures rest[..i] == commits[..i] && S.DecidedAt(w0, rest, i)
          && RecorderAt(w0, rest, recorders, i) {
        assert S.DecidedAt(w0, commits, i) && RecorderAt(w0, commits, recorders, i);
      }
      ReplayedLedger(w0, rest, recorders);
      assert S.DecidedAt(w0, commits, n) && RecorderAt(w0, commits, recorders, n);
      match commits[n]
      case Other(next) =>
        assert EntriesOf(commits, recorders) == EntriesOf(rest, recorders);
      case Update(c, patch, now) =>
        var before := S.Replay(w0.stored, w0.revision, rest);
        LedgerAfterUpdate(patch, before, now, w0.revision + |commits|,
            if c in recorders then Some(recorders[c]) else None);
        if c in recorders {
          UpsertAllAppend(LedgerOf(w0.stored), EntriesOf(rest, recorders), recorders[c]);
        } else {
          assert EntriesOf(commits, recorders) == EntriesOf(rest, recorders);
        }
    }
  }

  /**
   * Concurrent recorders lose nothing: whatever the interleaving, the ledger is the last twenty of the
   * full history of the entries it began with and of all those whose calls landed, in commit order.
   */
  lemma ConcurrentRecordersLoseNothing(w0: S.World, actions: seq<S.Action>, recorders: map<nat, Entry>,
      history: seq<Entry>)
    requires S.Fresh(w0) && S.Behaviour(w0, actions) && UniqueIds(history)
    requires LedgerOf(w0.stored) == TakeLast(history, 20)
    requires OnlyRecorders(w0, S.Run(w0, actions).commits, recorders)
    ensures var w := S.Run(w0, actions); var entries := EntriesOf(w.commits, recorders);
            && LedgerOf(w.stored) == TakeLast(RecordAll(history, entries), 20)
            && forall c :: c in recorders && c in w.calls && w.calls[c].stage.Ended? && w.calls[c].stage.landed ==>
                recorders[c] in entries
  {
    S.RunDecided(w0, w0, actions);
    S.Serialisable(w0, actions);
    var w := S.Run(w0, actions);
    ReplayedLedger(w0, w.commits, recorders);
    BoundedEqualsUnbounded(history, EntriesOf(w.commits, recorders));
    forall c | c in recorders && c in w.calls && w.calls[c].stage.Ended? && w.calls[c].stage.landed
      ensures recorders[c] in EntriesOf(w.commits, recorders)
    {
      S.EachCallOnce(w0, actions, c);
      EntryIsRecorded(w.commits, recorders, c);
    }
  }

  lemma {:induction false} EntryIsRecorded(commits: seq<S.Commit>, recorders: map<nat, Entry>, c: nat)
    requires c in recorders && S.UpdatesBy(c, commits) > 0
    ensures recorders[c] in EntriesOf(commits, recorders)
  {
    var n := |commits| - 1;
    if !(commits[n].Update? && commits[n].call == c) {
      EntryIsRecorded(commits[..n], recorders, c);
    }
  }
}
