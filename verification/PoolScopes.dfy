/** One scope per physical `(vm_type, zone)` pool: no demand lost, none counted twice, each pool reconciled once. */
module PoolScopes {
  import opened Prelude
  import opened Sessions
  import opened PoolDemand

  /** A physical pool: a VM type in a zone. */
  type Pool = (string, string)

  function ZoneOf(placement: Option<Placement>, vmZone: string): string {
    if placement.Some? then placement.value.zone else vmZone
  }

  function PoolOf(entry: Entry, vmZone: string): Pool {
    (entry.vmType, ZoneOf(entry.placement, vmZone))
  }

  /** What the entries ask of one pool, whichever way they name its zone. */
  function Asked(demand: seq<Entry>, pool: Pool, vmZone: string): nat {
    if demand == [] then 0 else
      var last := demand[|demand| - 1];
      Asked(demand[..|demand| - 1], pool, vmZone) + if PoolOf(last, vmZone) == pool then last.count else 0
  }

  function AskedPools(demand: seq<Entry>, vmZone: string): set<Pool> {
    set i | 0 <= i < |demand| :: PoolOf(demand[i], vmZone)
  }

  ghost function AskedMap(demand: seq<Entry>, vmZone: string): map<Pool, nat> {
    map pool | pool in AskedPools(demand, vmZone) :: Asked(demand, pool, vmZone)
  }

  function DefaultPools(vmZone: string): set<Pool> {
    {("ubuntu", vmZone), ("windows", vmZone)}
  }

  /** The explicit placements that name a pool. */
  ghost predicate Names(demand: seq<Entry>, pool: Pool, placement: Placement, vmZone: string) {
    exists i :: 0 <= i < |demand| && demand[i].placement == Some(placement) && PoolOf(demand[i], vmZone) == pool
  }

  /** A representative: explicit, and naming the pool, whenever any entry named it explicitly. */
  ghost predicate Represents(demand: seq<Entry>, pool: Pool, representative: Option<Placement>, vmZone: string) {
    match representative
    case Some(placement) => Names(demand, pool, placement, vmZone)
    case None => forall placement :: !Names(demand, pool, placement, vmZone)
  }

  /** `scopes` and `zoneDemand` say all there is to say about the entries. */
  ghost predicate Collapsed(demand: seq<Entry>, scopes: map<Pool, Option<Placement>>, zoneDemand: map<Pool, nat>,
      vmZone: string) {
    && scopes.Keys == zoneDemand.Keys == AskedPools(demand, vmZone)
    && (forall pool :: pool in scopes ==> Represents(demand, pool, scopes[pool], vmZone))
    && forall pool :: pool in zoneDemand ==> zoneDemand[pool] == Asked(demand, pool, vmZone)
  }

  function Added(zoneDemand: map<Pool, nat>, pool: Pool, count: nat): map<Pool, nat> {
    zoneDemand[pool := (if pool in zoneDemand then zoneDemand[pool] else 0) + count]
  }

  function Represented(scopes: map<Pool, Option<Placement>>, pool: Pool,
      placement: Option<Placement>): map<Pool, Option<Placement>> {
    if pool !in scopes || scopes[pool].None? then scopes[pool := placement] else scopes
  }

  lemma CollapsedNext(demand: seq<Entry>, entry: Entry, scopes: map<Pool, Option<Placement>>, zoneDemand: map<Pool,
      nat>, vmZone: string)
    requires Collapsed(demand, scopes, zoneDemand, vmZone)
    ensures Collapsed(demand + [entry], Represented(scopes, PoolOf(entry, vmZone), entry.placement),
            Added(zoneDemand, PoolOf(entry, vmZone), entry.count), vmZone)
  {
    var pool, longer := PoolOf(entry, vmZone), demand + [entry];
    assert longer[..|demand|] == demand;
    AskedNext(demand, entry, vmZone);
    if pool !in scopes {
      NobodyAsked(demand, pool, vmZone);
      RepresentsNext(demand, entry, pool, None, vmZone);
    }
    var next := Represented(scopes, pool, entry.placement);
    forall other | other in next ensures Represents(longer, other, next[other], vmZone) {
      if other in scopes {
        RepresentsNext(demand, entry, other, scopes[other], vmZone);
      }
    }
  }

  method Collapse(demand: seq<Entry>, vmZone: string)
    returns (scopes: map<Pool, Option<Placement>>, zoneDemand: map<Pool, nat>)
    ensures Collapsed(demand, scopes, zoneDemand, vmZone)
  {
    scopes, zoneDemand := map[], map[];
    for i := 0 to |demand|
      invariant Collapsed(demand[..i], scopes, zoneDemand, vmZone)
    {
      var entry := demand[i];
      var pool := (entry.vmType, if entry.placement.Some? then entry.placement.value.zone else vmZone);
      CollapsedNext(demand[..i], entry, scopes, zoneDemand, vmZone);
      assert demand[..i + 1] == demand[..i] + [entry];
      zoneDemand := Added(zoneDemand, pool, entry.count);
      scopes := Represented(scopes, pool, entry.placement);
    }
    assert demand[..|demand|] == demand;
  }

  /** Every pool in demand and every default pool is exactly one scope, explicit wherever any session named it so. */
  method PoolZoneScopes(demand: seq<Entry>, vmZone: string)
    returns (scopes: map<Pool, Option<Placement>>, zoneDemand: map<Pool, nat>)
    ensures scopes.Keys == AskedPools(demand, vmZone) + DefaultPools(vmZone)
    ensures forall pool :: pool in scopes ==> Represents(demand, pool, scopes[pool], vmZone)
    ensures zoneDemand == AskedMap(demand, vmZone)
  {
    scopes, zoneDemand := Collapse(demand, vmZone);
    var t := 0;
    while t < |SUPPORTED_POOL_VM_TYPES|
      invariant 0 <= t <= 2
      invariant scopes.Keys == AskedPools(demand, vmZone)
                + (if t == 0 then {} else if t == 1 then {("ubuntu", vmZone)} else DefaultPools(vmZone))
      invariant forall pool :: pool in scopes ==> Represents(demand, pool, scopes[pool], vmZone)
    {
      var pool := (SUPPORTED_POOL_VM_TYPES[t], vmZone);
      if pool !in scopes {
        NobodyAsked(demand, pool, vmZone);
        scopes := scopes[pool := None];
      }
      t := t + 1;
    }
  }

  lemma AskedNext(demand: seq<Entry>, entry: Entry, vmZone: string)
    ensures AskedPools(demand + [entry], vmZone) == AskedPools(demand, vmZone) + {PoolOf(entry, vmZone)}
    ensures forall pool :: pool !in AskedPools(demand, vmZone) ==> Asked(demand, pool, vmZone) == 0
  {
    var longer := demand + [entry];
    forall pool | pool in AskedPools(demand, vmZone) + {PoolOf(entry, vmZone)}
      ensures pool in AskedPools(longer, vmZone) {
      if pool == PoolOf(entry, vmZone) {
        assert longer[|demand|] == entry;
      } else {
        var i :| 0 <= i < |demand| && PoolOf(demand[i], vmZone) == pool;
        assert longer[i] == demand[i];
      }
    }
    forall pool | pool !in AskedPools(demand, vmZone) ensures Asked(demand, pool, vmZone) == 0 {
      NobodyAsked(demand, pool, vmZone);
    }
  }

  lemma {:induction false} NobodyAsked(demand: seq<Entry>, pool: Pool, vmZone: string)
    requires pool !in AskedPools(demand, vmZone)
    ensures Asked(demand, pool, vmZone) == 0 && Represents(demand, pool, None, vmZone)
  {
    if demand != [] {
      var before := demand[..|demand| - 1];
      assert forall i :: 0 <= i < |before| ==> before[i] == demand[i];
      assert PoolOf(demand[|demand| - 1], vmZone) in AskedPools(demand, vmZone);
      forall p | p in AskedPools(before, vmZone) ensures p in AskedPools(demand, vmZone) {
        var i :| 0 <= i < |before| && PoolOf(before[i], vmZone) == p;
        assert PoolOf(demand[i], vmZone) == p;
      }
      NobodyAsked(before, pool, vmZone);
    }
  }

  lemma RepresentsNext(demand: seq<Entry>, entry: Entry, pool: Pool, representative: Option<Placement>, vmZone: string)
    requires Represents(demand, pool, representative, vmZone)
    ensures Represents(demand + [entry], pool,
            if PoolOf(entry, vmZone) == pool && representative.None? then entry.placement else representative, vmZone)
  {
    var longer := demand + [entry];
    assert longer[|demand|] == entry;
    if representative.Some? {
      var i :| 0 <= i < |demand| && demand[i].placement == representative && PoolOf(demand[i], vmZone) == pool;
      assert longer[i] == demand[i];
    } else if !(PoolOf(entry, vmZone) == pool && entry.placement.Some?) {
      forall placement ensures !Names(longer, pool, placement, vmZone) {
        if Names(longer, pool, placement, vmZone) {
          var i :| 0 <= i < |longer| && longer[i].placement == Some(placement) && PoolOf(longer[i], vmZone) == pool;
          assert i < |demand| && demand[i] == longer[i];
          assert Names(demand, pool, placement, vmZone);
        }
      }
    }
  }

  // ---- conservation ----

  /** The demand of one type summed over its pools. */
  ghost function TypeTotal(zoneDemand: map<Pool, nat>, vmType: string): nat {
    if zoneDemand == map[] then 0 else
      var pool :| pool in zoneDemand;
      TypeTotal(zoneDemand - {pool}, vmType) + if pool.0 == vmType then zoneDemand[pool] else 0
  }

  /** The sum does not depend on the order in which the pools are taken. */
  lemma {:induction false} TypeTotalWithout(zoneDemand: map<Pool, nat>, pool: Pool, vmType: string)
    requires pool in zoneDemand
    ensures TypeTotal(zoneDemand, vmType) == TypeTotal(zoneDemand - {pool}, vmType)
            + if pool.0 == vmType then zoneDemand[pool] else 0
    decreases |zoneDemand|
  {
    var first :| first in zoneDemand && TypeTotal(zoneDemand, vmType) == TypeTotal(zoneDemand - {first}, vmType)
        + if first.0 == vmType then zoneDemand[first] else 0;
    if first != pool {
      TypeTotalWithout(zoneDemand - {first}, pool, vmType);
      TypeTotalWithout(zoneDemand - {pool}, first, vmType);
      assert zoneDemand - {first} - {pool} == zoneDemand - {pool} - {first};
    }
  }

  function TypeCount(demand: seq<Entry>, vmType: string): nat {
    if demand == [] then 0 else
      var last := demand[|demand| - 1];
      TypeCount(demand[..|demand| - 1], vmType) + if last.vmType == vmType then last.count else 0
  }

  /** Collapsing entries onto pools keeps the demand of each type. */
  lemma {:induction false} PoolsKeepDemand(demand: seq<Entry>, vmType: string, vmZone: string)
    ensures TypeTotal(AskedMap(demand, vmZone), vmType) == TypeCount(demand, vmType)
  {
    if demand == [] {
      assert AskedMap(demand, vmZone) == map[];
    } else {
      var before, last := demand[..|demand| - 1], demand[|demand| - 1];
      PoolsKeepDemand(before, vmType, vmZone);
      assert demand == before + [last];
      AskedOneMore(before, last, vmZone);
      AddedTotal(AskedMap(before, vmZone), PoolOf(last, vmZone), last.count, vmType);
    }
  }

  lemma AskedOneMore(demand: seq<Entry>, entry: Entry, vmZone: string)
    ensures AskedMap(demand + [entry], vmZone) == Added(AskedMap(demand, vmZone), PoolOf(entry, vmZone), entry.count)
  {
    AskedNext(demand, entry, vmZone);
    assert (demand + [entry])[..|demand|] == demand;
  }

  lemma AddedTotal(zoneDemand: map<Pool, nat>, pool: Pool, count: nat, vmType: string)
    ensures TypeTotal(Added(zoneDemand, pool, count), vmType) == TypeTotal(zoneDemand, vmType)
            + if pool.0 == vmType then count else 0
  {
    var next := Added(zoneDemand, pool, count);
    TypeTotalWithout(next, pool, vmType);
    assert next - {pool} == zoneDemand - {pool};
    if pool in zoneDemand {
      TypeTotalWithout(zoneDemand, pool, vmType);
    } else {
      assert zoneDemand - {pool} == zoneDemand;
    }
  }

  /** Sessions of a type that wait but name a placement the catalog does not have. */
  function Misplaced(sessions: seq<Session>, catalog: Catalog, vmType: string): nat {
    if sessions == [] then 0 else
      var last := sessions[|sessions| - 1];
      Misplaced(sessions[..|sessions| - 1], catalog, vmType)
      + if Waits(last) && VmTypeOf(last) == vmType && PlacementOf(last, catalog).Invalid? then 1 else 0
  }

  lemma {:induction false} BumpedCounts(demand: seq<Entry>, vmType: string, placement: Option<Placement>, t: string)
    ensures TypeCount(Bumped(demand, vmType, placement), t) == TypeCount(demand, t) + if t == vmType then 1 else 0
  {
    var bumped := Bumped(demand, vmType, placement);
    if demand == [] {
      assert bumped[..0] == [];
    } else {
      TypeCountHead(demand, t);
      TypeCountHead(bumped, t);
      assert bumped == [bumped[0]] + bumped[1..];
      if !(demand[0].vmType == vmType && demand[0].placement == placement) {
        BumpedCounts(demand[1..], vmType, placement, t);
      }
    }
  }

  lemma {:induction false} TypeCountHead(demand: seq<Entry>, t: string)
    requires demand != []
    ensures TypeCount(demand, t) == (if demand[0].vmType == t then demand[0].count else 0) + TypeCount(demand[1..], t)
  {
    if |demand| > 1 {
      TypeCountHead(demand[..|demand| - 1], t);
      assert demand[..|demand| - 1][1..] == demand[1..][..|demand| - 2];
    } else {
      assert demand[..0] == [] && demand[1..] == [];
    }
  }

  lemma {:induction false} DemandedCounts(sessions: seq<Session>, catalog: Catalog, vmType: string)
    ensures TypeCount(Demanded(sessions, catalog).demand, vmType)
            + Misplaced(sessions, catalog, vmType) == Pending(sessions, vmType)
  {
    if sessions != [] {
      var before, last := sessions[..|sessions| - 1], sessions[|sessions| - 1];
      DemandedCounts(before, catalog, vmType);
      if Waits(last) && PlacementOf(last, catalog).Placed? {
        BumpedCounts(Demanded(before, catalog).demand, VmTypeOf(last), PlacementOf(last, catalog).placement, vmType);
      }
    }
  }

  /**
   * Conservation: for every VM type, what all its physical pools are asked for, plus the waiting sessions
   * whose placement is invalid, is the aggregate number of pending sessions.
   */
  lemma DemandIsConserved(sessions: seq<Session>, catalog: Catalog, vmZone: string, vmType: string)
    ensures TypeTotal(AskedMap(Demanded(sessions, catalog).demand, vmZone), vmType)
            + Misplaced(sessions, catalog, vmType) == Pending(sessions, vmType)
  {
    DemandedCounts(sessions, catalog, vmType);
    PoolsKeepDemand(Demanded(sessions, catalog).demand, vmType, vmZone);
  }

  /** The waiting sessions whose placement the catalog does not have, in the order they are listed. */
  function MisplacedSessions(sessions: seq<Session>, catalog: Catalog): (misplaced: seq<Session>)
    ensures forall session :: session in misplaced <==>
              session in sessions && Waits(session) && PlacementOf(session, catalog).Invalid?
  {
    if sessions == [] then [] else
      var before, last := MisplacedSessions(sessions[..|sessions| - 1], catalog), sessions[|sessions| - 1];
      assert sessions == sessions[..|sessions| - 1] + [last];
      if Waits(last) && PlacementOf(last, catalog).Invalid? then before + [last] else before
  }

  /**
   * Each misplaced session is reported by its id with its error, in order and as often as it is listed, and no
   * other is.
   */
  lemma {:induction false} MisplacedAreReported(sessions: seq<Session>, catalog: Catalog)
    ensures var invalid, misplaced := Demanded(sessions, catalog).invalid, MisplacedSessions(sessions, catalog);
            && |invalid| == |misplaced| == Misplaced(sessions, catalog, "ubuntu")
                + Misplaced(sessions, catalog, "windows")
            && forall i :: 0 <= i < |invalid| ==>
                 && PlacementOf(misplaced[i], catalog).Invalid?
                 && invalid[i] == InvalidPlacement(TextOf(misplaced[i].spec, "assistantId"),
                     PlacementOf(misplaced[i], catalog).error)
  {
    if sessions != [] {
      MisplacedAreReported(sessions[..|sessions| - 1], catalog);
    }
  }
}
