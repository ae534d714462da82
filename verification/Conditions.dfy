/** `merge_conditions`: status conditions whose transition time moves only when their content does. */
module Conditions {
  import opened Ordering
  import opened Sessions

  type Table = map<string, Condition>

  predicate SameContent(a: Condition, b: Condition) {
    a.kind == b.kind && a.status == b.status && a.reason == b.reason && a.message == b.message
  }

  /** Equal content is equality of everything but the transition time. */
  lemma SameContentMeans(a: Condition, b: Condition)
    ensures SameContent(a, b) <==> a == b.(lastTransitionTime := a.lastTransitionTime)
  {
  }

  /** The table a stored list is read into: later entries win, entries without a type are dropped. */
  function Indexed(existing: seq<Condition>): Table {
    if existing == [] then map[] else
      var table := Indexed(existing[..|existing| - 1]);
      var last := existing[|existing| - 1];
      if last.kind == "" then table else table[last.kind := last]
  }

  function Updated(table: Table, update: Condition): Table {
    if update.kind in table && SameContent(table[update.kind], update) then table else table[update.kind := update]
  }

  function Folded(table: Table, updates: seq<Condition>): Table {
    if updates == [] then table else Updated(Folded(table, updates[..|updates| - 1]), updates[|updates| - 1])
  }

  ghost predicate Keyed(table: Table) {
    forall kind :: kind in table ==> table[kind].kind == kind
  }

  lemma {:induction false} IndexedIsKeyed(existing: seq<Condition>)
    ensures Keyed(Indexed(existing)) && "" !in Indexed(existing)
  {
    if existing != [] {
      IndexedIsKeyed(existing[..|existing| - 1]);
    }
  }

  lemma {:induction false} FoldedIsKeyed(table: Table, updates: seq<Condition>)
    requires Keyed(table)
    ensures Keyed(Folded(table, updates))
  {
    if updates != [] {
      FoldedIsKeyed(table, updates[..|updates| - 1]);
    }
  }

  function Kinds(list: seq<Condition>): (kinds: seq<string>)
    ensures |kinds| == |list| && forall i :: 0 <= i < |list| ==> kinds[i] == list[i].kind
  {
    seq(|list|, i requires 0 <= i < |list| => list[i].kind)
  }

  /** `list` shows the whole table in order of type. */
  ghost predicate Lists(list: seq<Condition>, table: Table) {
    && Ordered(false, Kinds(list))
    && Members(Kinds(list)) == table.Keys
    && forall i :: 0 <= i < |list| ==> list[i].kind in table && list[i] == table[list[i].kind]
  }

  lemma ListIsUnique(a: seq<Condition>, b: seq<Condition>, table: Table)
    requires Lists(a, table) && Lists(b, table)
    ensures a == b
  {
    OrderedIsUnique(false, Kinds(a), Kinds(b));
    assert |a| == |b|;
    forall i | 0 <= i < |a| ensures a[i] == b[i] {
      assert Kinds(a)[i] == Kinds(b)[i];
    }
  }

  /** The loop of the source over a dictionary, then its values in order of key. */
  method MergeConditions(existing: seq<Condition>, updates: seq<Condition>) returns (merged: seq<Condition>)
    ensures Lists(merged, Folded(Indexed(existing), updates))
  {
    var conditions: Table := map[];
    for i := 0 to |existing|
      invariant conditions == Indexed(existing[..i])
    {
      assert existing[..i + 1][..i] == existing[..i];
      if existing[i].kind != "" {
        conditions := conditions[existing[i].kind := existing[i]];
      }
    }
    assert existing[..|existing|] == existing;
    IndexedIsKeyed(existing);
    for i := 0 to |updates|
      invariant conditions == Folded(Indexed(existing), updates[..i])
    {
      assert updates[..i + 1][..i] == updates[..i];
      var update := updates[i];
      if update.kind in conditions {
        var previous := conditions[update.kind];
        if previous.kind == update.kind && previous.status == update.status && previous.reason == update.reason
            && previous.message == update.message {
          continue;
        }
      }
      conditions := conditions[update.kind := update];
    }
    assert updates[..|updates|] == updates;
    FoldedIsKeyed(Indexed(existing), updates);
    var kinds := Sort(false, conditions.Keys);
    merged := [];
    for i := 0 to |kinds|
      invariant |merged| == i
      invariant forall j :: 0 <= j < i ==> kinds[j] in conditions && merged[j] == conditions[kinds[j]]
    {
      assert kinds[i] in Members(kinds);
      merged := merged + [conditions[kinds[i]]];
    }
    assert Kinds(merged) == kinds;
  }

  // ---- what a table entry is, over the history of its type ----

  function OfKind(updates: seq<Condition>, kind: string): seq<Condition> {
    if updates == [] then [] else
      var before := OfKind(updates[..|updates| - 1], kind);
      var last := updates[|updates| - 1];
      if last.kind == kind then before + [last] else before
  }

  function Entry(table: Table, kind: string): seq<Condition> {
    if kind in table then [table[kind]] else []
  }

  /** Position `i` opens the latest unbroken run of equal content in the history of one type. */
  ghost predicate OpensLatestRun(history: seq<Condition>, i: nat) {
    && i < |history|
    && (forall j :: i <= j < |history| ==> SameContent(history[j], history[i]))
    && (i > 0 ==> !SameContent(history[i - 1], history[i]))
  }

  /** The entry a history of one type leaves: nothing, or the update that opened its latest run. */
  ghost predicate Leaves(history: seq<Condition>, entry: seq<Condition>) {
    if history == [] then entry == [] else exists i: nat :: OpensLatestRun(history, i) && entry == [history[i]]
  }

  lemma LeavesOne(history: seq<Condition>, a: seq<Condition>, b: seq<Condition>)
    requires Leaves(history, a) && Leaves(history, b)
    ensures a == b
  {
  }

  lemma LeavesNext(history: seq<Condition>, entry: seq<Condition>, update: Condition)
    requires Leaves(history, entry)
    ensures Leaves(history + [update], if entry != [] && SameContent(entry[0], update) then entry else [update])
  {
    var longer := history + [update];
    if history == [] {
      assert OpensLatestRun(longer, 0);
    } else {
      var i: nat :| OpensLatestRun(history, i) && entry == [history[i]];
      if SameContent(entry[0], update) {
        assert OpensLatestRun(longer, i);
      } else {
        assert SameContent(history[|history| - 1], history[i]);
        assert OpensLatestRun(longer, |history|);
      }
    }
  }

  lemma {:induction false} FoldedEntry(table: Table, updates: seq<Condition>, kind: string)
    requires Keyed(table)
    ensures Leaves(Entry(table, kind) + OfKind(updates, kind), Entry(Folded(table, updates), kind))
  {
    var start := Entry(table, kind);
    if updates == [] {
      assert start + [] == start;
      if start != [] {
        assert OpensLatestRun(start, 0);
      }
    } else {
      var before, last := updates[..|updates| - 1], updates[|updates| - 1];
      FoldedEntry(table, before, kind);
      FoldedIsKeyed(table, before);
      if last.kind == kind {
        LeavesNext(start + OfKind(before, kind), Entry(Folded(table, before), kind), last);
        assert start + OfKind(before, kind) + [last] == start + OfKind(updates, kind);
      }
    }
  }

  // ---- the list over a sequence of merges ----

  /** `lists` are the stored lists, each merged from the one before it with that call's updates. */
  ghost predicate Merges(lists: seq<seq<Condition>>, calls: seq<seq<Condition>>) {
    && |lists| == |calls| + 1
    && forall i :: 0 <= i < |calls| ==> Lists(lists[i + 1], Folded(Indexed(lists[i]), calls[i]))
  }

  /**
   * Everything ever submitted for one type, after the entry the first list had for it. An entry without
   * a type does not survive the next merge, so for the empty type only the last call counts.
   */
  ghost function Submitted(initial: seq<Condition>, calls: seq<seq<Condition>>, kind: string): seq<Condition> {
    if calls == [] then
      Entry(Indexed(initial), kind)
    else
      (if kind == "" then [] else Submitted(initial, calls[..|calls| - 1], kind)) + OfKind(calls[|calls| - 1], kind)
  }

  /** Reading back a list drops the entry without a type and nothing else. */
  lemma {:induction false} IndexedIsListed(list: seq<Condition>, table: Table, kind: string)
    requires Lists(list, table)
    ensures Entry(Indexed(list), kind) == if kind == "" then [] else Entry(table, kind)
  {
    IndexedIsKeyed(list);
    IndexedLast(list);
    var kinds := Kinds(list);
    if kind != "" && kind in table {
      assert kind in Members(kinds);
      var i :| 0 <= i < |kinds| && kinds[i] == kind;
      assert list[i].kind == kind;
    }
    if kind in Indexed(list) {
      var i :| 0 <= i < |list| && list[i].kind == kind;
      assert kinds[i] in Members(kinds);
    }
  }

  lemma {:induction false} IndexedLast(list: seq<Condition>)
    ensures forall kind :: kind in Indexed(list) ==> exists i :: 0 <= i < |list| && list[i].kind == kind
    ensures Ordered(false, Kinds(list)) ==>
              forall i :: 0 <= i < |list| && list[i].kind != "" ==>
                  list[i].kind in Indexed(list) && Indexed(list)[list[i].kind] == list[i]
  {
    if list != [] {
      var before, last := list[..|list| - 1], list[|list| - 1];
      IndexedLast(before);
      assert forall i :: 0 <= i < |before| ==> before[i] == list[i];
      forall kind | kind in Indexed(list) ensures exists i :: 0 <= i < |list| && list[i].kind == kind {
        if kind in Indexed(before) {
          var i :| 0 <= i < |before| && before[i].kind == kind;
          assert list[i].kind == kind;
        } else {
          assert list[|list| - 1].kind == kind;
        }
      }
      if Ordered(false, Kinds(list)) {
        assert forall i :: 0 <= i < |before| ==> Kinds(before)[i] == Kinds(list)[i];
        forall i | 0 <= i < |before| ensures list[i].kind != last.kind {
          assert InOrder(false, Kinds(list)[i], Kinds(list)[|list| - 1]);
          BeforeIsStrict(last.kind, last.kind);
        }
      }
    }
  }

  /**
   * After any sequence of merges the stored list is sorted, has one entry per type, names exactly the
   * types ever submitted, and each entry (its transition time with it) is the update that opened the
   * latest unbroken run of equal status, reason and message.
   */
  lemma {:induction false} ConditionHistory(lists: seq<seq<Condition>>, calls: seq<seq<Condition>>)
    requires Merges(lists, calls) && calls != []
    ensures Ordered(false, Kinds(lists[|calls|]))
    ensures forall kind :: kind in Members(Kinds(lists[|calls|])) <==> Submitted(lists[0], calls, kind) != []
    ensures forall i :: 0 <= i < |lists[|calls|]| ==>
              Leaves(Submitted(lists[0], calls, lists[|calls|][i].kind), [lists[|calls|][i]])
  {
    var n := |calls|;
    var table := Folded(Indexed(lists[n - 1]), calls[n - 1]);
    assert Lists(lists[n], table);
    forall kind ensures Leaves(Submitted(lists[0], calls, kind), Entry(table, kind)) {
      HistoryOf(lists, calls, kind);
    }
    forall i | 0 <= i < |lists[n]|
      ensures Leaves(Submitted(lists[0], calls, lists[n][i].kind), [lists[n][i]])
    {
      assert Entry(table, lists[n][i].kind) == [lists[n][i]];
    }
    forall kind ensures kind in table <==> Submitted(lists[0], calls, kind) != [] {
      assert Leaves(Submitted(lists[0], calls, kind), Entry(table, kind));
    }
  }

  lemma {:induction false} HistoryOf(lists: seq<seq<Condition>>, calls: seq<seq<Condition>>, kind: string)
    requires Merges(lists, calls) && calls != []
    ensures Leaves(Submitted(lists[0], calls, kind),
            Entry(Folded(Indexed(lists[|calls| - 1]), calls[|calls| - 1]), kind))
    decreases |calls|
  {
    var n := |calls|;
    var table := Indexed(lists[n - 1]);
    IndexedIsKeyed(lists[n - 1]);
    FoldedEntry(table, calls[n - 1], kind);
    if n == 1 {
      assert calls[..n - 1] == [];
      assert Submitted(lists[0], calls, kind) == Entry(table, kind) + OfKind(calls[n - 1], kind);
    } else {
      var shorter, fewer := lists[..n], calls[..n - 1];
      assert forall i :: 0 <= i < |fewer| ==> fewer[i] == calls[i];
      assert forall i :: 0 <= i < |shorter| ==> shorter[i] == lists[i];
      var earlier := Folded(Indexed(lists[n - 2]), calls[n - 2]);
      assert Lists(lists[n - 2 + 1], earlier);
      IndexedIsListed(lists[n - 1], earlier, kind);
      if kind == "" {
        assert Entry(table, kind) + OfKind(calls[n - 1], kind) == Submitted(lists[0], calls, kind);
      } else {
        HistoryOf(shorter, fewer, kind);
        LongerHistory(Submitted(lists[0], fewer, kind), Entry(table, kind), OfKind(calls[n - 1], kind));
        FromHistory(Submitted(lists[0], fewer, kind), Entry(table, kind), OfKind(calls[n - 1], kind),
            Entry(Folded(table, calls[n - 1]), kind));
      }
    }
  }

  /** A history may be replaced by what it leaves without changing what any continuation leaves. */
  lemma {:induction false} LongerHistory(history: seq<Condition>, entry: seq<Condition>, more: seq<Condition>)
    requires Leaves(history, entry)
    ensures exists result :: Leaves(history + more, result) && Leaves(entry + more, result)
  {
    if more == [] {
      assert history + more == history && entry + more == entry;
      if entry != [] {
        assert OpensLatestRun(entry, 0);
      }
      assert Leaves(history + more, entry) && Leaves(entry + more, entry);
    } else {
      var before, last := more[..|more| - 1], more[|more| - 1];
      LongerHistory(history, entry, before);
      var result :| Leaves(history + before, result) && Leaves(entry + before, result);
      LeavesNext(history + before, result, last);
      LeavesNext(entry + before, result, last);
      assert history + before + [last] == history + more && entry + before + [last] == entry + more;
    }
  }

  lemma FromHistory(history: seq<Condition>, entry: seq<Condition>, more: seq<Condition>, result: seq<Condition>)
    requires Leaves(history, entry) && Leaves(entry + more, result)
    ensures Leaves(history + more, result)
  {
    LongerHistory(history, entry, more);
    var same :| Leaves(history + more, same) && Leaves(entry + more, same);
    LeavesOne(entry + more, result, same);
  }

  // ---- merging the same updates twice ----

  lemma AgainLeavesTheSame(start: seq<Condition>, more: seq<Condition>, entry: seq<Condition>)
    requires Leaves(start + more, entry)
    ensures Leaves(entry + more, entry)
  {
    if start + more != [] {
      var history := start + more;
      var i: nat :| OpensLatestRun(history, i) && entry == [history[i]];
      var again := entry + more;
      if i < |start| {
        forall j | 0 <= j < |again| ensures SameContent(again[j], again[0]) {
          if j > 0 {
            assert again[j] == more[j - 1] == history[|start| + j - 1];
          }
        }
        assert OpensLatestRun(again, 0);
      } else {
        var at := i - |start| + 1;
        assert again[at] == more[at - 1] == history[i];
        forall j | at <= j < |again| ensures SameContent(again[j], again[at]) {
          assert again[j] == more[j - 1] == history[|start| + j - 1];
        }
        if at > 1 {
          assert again[at - 1] == more[at - 2] == history[i - 1];
          assert OpensLatestRun(again, at);
        } else {
          assert forall j :: 0 <= j < |again| ==> SameContent(again[j], again[0]);
          assert OpensLatestRun(again, 0);
        }
      }
    }
  }

  /** Merging the updates of the last call once more changes nothing, not even a transition time. */
  lemma RemergeIsANoOp(existing: seq<Condition>, updates: seq<Condition>, once: seq<Condition>, twice: seq<Condition>)
    requires Lists(once, Folded(Indexed(existing), updates)) && Lists(twice, Folded(Indexed(once), updates))
    ensures twice == once
  {
    var first, second := Folded(Indexed(existing), updates), Folded(Indexed(once), updates);
    IndexedIsKeyed(existing);
    IndexedIsKeyed(once);
    FoldedIsKeyed(Indexed(existing), updates);
    FoldedIsKeyed(Indexed(once), updates);
    forall kind ensures Entry(second, kind) == Entry(first, kind) {
      FoldedEntry(Indexed(existing), updates, kind);
      FoldedEntry(Indexed(once), updates, kind);
      IndexedIsListed(once, first, kind);
      SameEntryAgain(Entry(Indexed(existing), kind), Entry(Indexed(once), kind), OfKind(updates, kind),
          Entry(first, kind), Entry(second, kind));
    }
    SameTable(first, second);
    ListIsUnique(once, twice, first);
  }

  lemma SameEntryAgain(start: seq<Condition>, kept: seq<Condition>, more: seq<Condition>, first: seq<Condition>,
      second: seq<Condition>)
    requires Leaves(start + more, first) && Leaves(kept + more, second)
    requires kept == first || start == kept == []
    ensures second == first
  {
    if start == kept {
      LeavesOne(start + more, first, second);
    } else {
      AgainLeavesTheSame(start, more, first);
      LeavesOne(kept + more, first, second);
    }
  }

  lemma SameTable(a: Table, b: Table)
    requires forall kind :: Entry(a, kind) == Entry(b, kind)
    ensures a == b
  {
    forall kind ensures (kind in a <==> kind in b) && (kind in a && kind in b ==> a[kind] == b[kind]) {
      assert Entry(a, kind) == Entry(b, kind);
    }
  }

  /** An entry without a type is in the merged list exactly if this very call submitted one, whatever was stored. */
  lemma UntypedOnlyIfSubmitted(existing: seq<Condition>, updates: seq<Condition>, merged: seq<Condition>)
    requires Lists(merged, Folded(Indexed(existing), updates))
    ensures "" in Members(Kinds(merged)) <==> OfKind(updates, "") != []
  {
    IndexedIsKeyed(existing);
    FoldedEntry(Indexed(existing), updates, "");
  }

  /** So one that was submitted once is gone after the next merge, even of no updates at all. */
  lemma UntypedIsForgotten(existing: seq<Condition>, untyped: Condition, once: seq<Condition>, twice: seq<Condition>)
    requires untyped.kind == "" && Lists(once, Folded(Indexed(existing), [untyped]))
    requires Lists(twice, Folded(Indexed(once), []))
    ensures "" in Members(Kinds(once)) && "" !in Members(Kinds(twice))
  {
    UntypedOnlyIfSubmitted(existing, [untyped], once);
    UntypedOnlyIfSubmitted(once, [], twice);
    assert OfKind([untyped], "") == OfKind([], "") + [untyped];
  }
}
