/** The per-pool loop of `reconcile_pool_once`: every scope served once, with the whole demand of its pool. */
module PoolReconcile {
  import opened Prelude
  import opened Ordering
  import opened Sessions
  import opened PoolDemand
  import opened PoolScopes

  type Scopes = map<Pool, Option<Placement>>

  /** `_pool_result_key`. */
  function ResultKey(vmType: string, placement: Option<Placement>): string {
    match placement
    case None => vmType + ":" + "legacy"
    case Some(p) => vmType + ":" + (p.location.id + ":" + p.zone)
  }

  lemma ResultKeyMeans(vmType: string, at: Placement)
    ensures ResultKey(vmType, None) == vmType + ":legacy"
    ensures ResultKey(vmType, Some(at)) == vmType + ":" + at.location.id + ":" + at.zone
  {
    assert ":" + "legacy" == ":legacy";
    assert vmType + (":" + "legacy") == (vmType + ":") + "legacy";
  }

  /** Names in the catalog, as everywhere in the cloud API, contain no colon. */
  ghost predicate Colonless(catalog: Catalog) {
    forall id :: id in catalog ==> ':' !in catalog[id].id && forall zone :: zone in catalog[id].zones ==> ':' !in zone
  }

  ghost predicate PlainPlacement(placement: Option<Placement>) {
    placement.Some? ==> ':' !in placement.value.location.id && ':' !in placement.value.zone
  }

  lemma {:induction false} SplitAtColon(a: string, x: string, b: string, y: string)
    requires ':' !in a && ':' !in b && a + ":" + x == b + ":" + y
    ensures a == b && x == y
  {
    var s, t := a + ":" + x, b + ":" + y;
    if a == "" || b == "" {
      assert s[0] == t[0];
      assert s[1..] == t[1..];
      assert a == "" ==> s[1..] == x;
      assert b == "" ==> t[1..] == y;
    } else {
      assert s[0] == a[0] && t[0] == b[0];
      assert s[1..] == a[1..] + ":" + x && t[1..] == b[1..] + ":" + y;
      SplitAtColon(a[1..], x, b[1..], y);
      assert a == [a[0]] + a[1..] && b == [b[0]] + b[1..];
    }
  }

  lemma KeyTellsScope(vmType: string, placement: Option<Placement>, vmType': string, placement': Option<Placement>)
    requires ':' !in vmType && ':' !in vmType' && PlainPlacement(placement) && PlainPlacement(placement')
    requires ResultKey(vmType, placement) == ResultKey(vmType', placement')
    ensures vmType == vmType' && (placement.None? <==> placement'.None?)
    ensures placement.Some? ==> placement.value.zone == placement'.value.zone
  {
    var rest := if placement.None? then "legacy" else placement.value.location.id + ":" + placement.value.zone;
    var rest' := if placement'.None? then "legacy" else placement'.value.location.id + ":" + placement'.value.zone;
    SplitAtColon(vmType, rest, vmType', rest');
    ColonIn(placement);
    ColonIn(placement');
    if placement.Some? && placement'.Some? {
      SplitAtColon(placement.value.location.id, placement.value.zone, placement'.value.location.id,
          placement'.value.zone);
    }
  }

  lemma ColonIn(placement: Option<Placement>)
    ensures placement.Some? ==> ':' in placement.value.location.id + ":" + placement.value.zone
    ensures ':' !in "legacy"
  {
  }

  /** A scope's representative is a plain placement in the zone of its pool, and None only for a default pool. */
  ghost predicate WellScoped(scopes: Scopes, vmZone: string) {
    forall pool :: pool in scopes ==>
      ':' !in pool.0 && PlainPlacement(scopes[pool]) && ZoneOf(scopes[pool], vmZone) == pool.1
  }

  lemma {:induction false} DemandedPlacements(sessions: seq<Session>, catalog: Catalog)
    requires Colonless(catalog)
    ensures forall e :: e in Demanded(sessions, catalog).demand ==> ':' !in e.vmType && PlainPlacement(e.placement)
  {
    if sessions != [] {
      var before, last := sessions[..|sessions| - 1], sessions[|sessions| - 1];
      DemandedPlacements(before, catalog);
      if Waits(last) && PlacementOf(last, catalog).Placed? {
        BumpedMembers(Demanded(before, catalog).demand, VmTypeOf(last), PlacementOf(last, catalog).placement);
      }
    }
  }

  /** The scopes of one cycle are well scoped, so no two of them share a key. */
  lemma ScopesAreWellScoped(sessions: seq<Session>, catalog: Catalog, scopes: Scopes, vmZone: string)
    requires Colonless(catalog)
    requires scopes.Keys == AskedPools(Demanded(sessions, catalog).demand, vmZone) + DefaultPools(vmZone)
    requires forall pool :: pool in scopes ==>
             Represents(Demanded(sessions, catalog).demand, pool, scopes[pool], vmZone)
    ensures WellScoped(scopes, vmZone)
  {
    var demand := Demanded(sessions, catalog).demand;
    DemandedPlacements(sessions, catalog);
    forall pool | pool in scopes ensures ':' !in pool.0 && PlainPlacement(scopes[pool])
        && ZoneOf(scopes[pool], vmZone) == pool.1 {
      if scopes[pool].Some? {
        var i :| 0 <= i < |demand| && demand[i].placement == scopes[pool] && PoolOf(demand[i], vmZone) == pool;
        assert demand[i] in demand;
      } else if pool !in DefaultPools(vmZone) {
        var i :| 0 <= i < |demand| && PoolOf(demand[i], vmZone) == pool;
        assert demand[i] in demand;
        if demand[i].placement.Some? {
          assert Names(demand, pool, demand[i].placement.value, vmZone);
        }
      }
    }
  }

  lemma KeysAreDistinct(scopes: Scopes, vmZone: string)
    requires WellScoped(scopes, vmZone)
    ensures forall p, q :: p in scopes && q in scopes && ResultKey(p.0, scopes[p]) == ResultKey(q.0, scopes[q]) ==>
            p == q
  {
    forall p, q | p in scopes && q in scopes && ResultKey(p.0, scopes[p]) == ResultKey(q.0, scopes[q]) ensures p == q {
      KeyTellsScope(p.0, scopes[p], q.0, scopes[q]);
    }
  }

  // ---- the loop ----

  /** One pool served: what it was told is queued, and whether both steps went through. */
  datatype Visit = Visit(pool: Pool, placement: Option<Placement>, replenishDemand: nat, trimDemand: Option<nat>,
      ok: bool)

  datatype PoolResult = Reconciled(pending: nat) | Failed(pending: nat)

  class VmPools {
    ghost var visits: seq<Visit>

    constructor ()
      ensures visits == []
    {
      visits := [];
    }

    /** `replenish_pool` then `trim_pool` inside one placement scope; either may raise. */
    method Serve(pool: Pool, placement: Option<Placement>, pending: nat) returns (ok: bool)
      modifies this
      ensures |visits| == |old(visits)| + 1 && visits[..|old(visits)|] == old(visits)
      ensures var visit := visits[|old(visits)|];
              visit == Visit(pool, placement, pending, visit.trimDemand, ok)
                  && (visit.trimDemand.Some? ==> visit.trimDemand.value == pending) && (ok ==> visit.trimDemand.Some?)
    {
      var replenished: bool, trimmed: bool := *, *;
      ok := replenished && trimmed;
      visits := visits + [Visit(pool, placement, pending, if replenished then Some(pending) else None, ok)];
    }
  }

  function PendingOf(zoneDemand: map<Pool, nat>, pool: Pool): nat {
    if pool in zoneDemand then zoneDemand[pool] else 0
  }

  function KeyOf(visit: Visit): string {
    ResultKey(visit.pool.0, visit.placement)
  }

  /** A visit is to a scope, as represented, with the demand of its pool and a record that says how it went. */
  ghost predicate Faithful(visit: Visit, scopes: Scopes, zoneDemand: map<Pool, nat>, results: map<string, PoolResult>) {
    && visit.pool in scopes && visit.placement == scopes[visit.pool]
    && visit.replenishDemand == PendingOf(zoneDemand, visit.pool)
    && (visit.trimDemand.Some? ==> visit.trimDemand.value == visit.replenishDemand)
    && (visit.ok ==> visit.trimDemand.Some?)
    && KeyOf(visit) in results && results[KeyOf(visit)] ==
        if visit.ok then Reconciled(visit.replenishDemand) else Failed(visit.replenishDemand)
  }

  /** The keys of the scopes, each leading back to its scope. */
  ghost predicate Indexes(byKey: map<string, Pool>, scopes: Scopes) {
    && (forall key :: key in byKey ==> byKey[key] in scopes && key == ResultKey(byKey[key].0, scopes[byKey[key]]))
    && forall pool :: pool in scopes ==>
        ResultKey(pool.0, scopes[pool]) in byKey && byKey[ResultKey(pool.0, scopes[pool])] == pool
  }

  method IndexByKey(scopes: Scopes, vmZone: string) returns (byKey: map<string, Pool>)
    requires WellScoped(scopes, vmZone)
    ensures Indexes(byKey, scopes)
  {
    KeysAreDistinct(scopes, vmZone);
    byKey := map pool | pool in scopes :: ResultKey(pool.0, scopes[pool]) := pool;
  }

  lemma FaithfulStays(visit: Visit, scopes: Scopes, zoneDemand: map<Pool, nat>, results: map<string, PoolResult>,
      key: string, result: PoolResult)
    requires Faithful(visit, scopes, zoneDemand, results) && KeyOf(visit) != key
    ensures Faithful(visit, scopes, zoneDemand, results[key := result])
  {
  }

  /**
   * Every scope is served exactly once, in the order of its key, whatever fails on the way; each is told the
   * whole demand of its physical pool, the same number for replenishing and trimming; each has its own record.
   */
  method ReconcilePools(pools: VmPools, scopes: Scopes, zoneDemand: map<Pool, nat>, vmZone: string)
    returns (results: map<string, PoolResult>)
    requires WellScoped(scopes, vmZone) && pools.visits == []
    modifies pools
    ensures forall pool :: pool in scopes ==> exists i :: 0 <= i < |pools.visits| && pools.visits[i].pool == pool
    ensures forall i, j :: 0 <= i < j < |pools.visits| ==> Before(KeyOf(pools.visits[i]), KeyOf(pools.visits[j]))
    ensures forall i :: 0 <= i < |pools.visits| ==> Faithful(pools.visits[i], scopes, zoneDemand, results)
    ensures forall key :: key in results ==> exists i :: 0 <= i < |pools.visits| && KeyOf(pools.visits[i]) == key
  {
    var byKey := IndexByKey(scopes, vmZone);
    var keys := Sort(false, byKey.Keys);
    results := map[];
    for i := 0 to |keys|
      invariant |pools.visits| == i
      invariant forall j :: 0 <= j < i ==>
                KeyOf(pools.visits[j]) == keys[j] && pools.visits[j].pool == PoolAt(byKey, keys[j])
      invariant forall j :: 0 <= j < i ==> Faithful(pools.visits[j], scopes, zoneDemand, results)
      invariant forall key :: key in results ==> key in keys[..i]
    {
      assert keys[i] in Members(keys);
      var pool := byKey[keys[i]];
      var pending := if pool in zoneDemand then zoneDemand[pool] else 0;
      ghost var before := pools.visits;
      var ok := pools.Serve(pool, scopes[pool], pending);
      var result := if ok then Reconciled(pending) else Failed(pending);
      forall j | 0 <= j < i ensures Faithful(pools.visits[j], scopes, zoneDemand, results[keys[i] := result]) {
        assert pools.visits[j] == before[j];
        BeforeIsStrict(keys[j], keys[i]);
        FaithfulStays(before[j], scopes, zoneDemand, results, keys[i], result);
      }
      results := results[keys[i] := result];
    }
    AllVisited(scopes, byKey, keys, pools.visits);
  }

  lemma AllVisited(scopes: Scopes, byKey: map<string, Pool>, keys: seq<string>, visits: seq<Visit>)
    requires Indexes(byKey, scopes) && Members(keys) == byKey.Keys && Ordered(false, keys) && |visits| == |keys|
    requires forall j :: 0 <= j < |keys| ==> KeyOf(visits[j]) == keys[j] && visits[j].pool == PoolAt(byKey, keys[j])
    ensures forall pool :: pool in scopes ==> exists i :: 0 <= i < |visits| && visits[i].pool == pool
    ensures forall i, j :: 0 <= i < j < |visits| ==> Before(KeyOf(visits[i]), KeyOf(visits[j]))
  {
  }

  ghost function PoolAt(byKey: map<string, Pool>, key: string): Pool {
    if key in byKey then byKey[key] else ("", "")
  }
}
