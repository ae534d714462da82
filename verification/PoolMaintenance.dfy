/** The maintenance sweep over the job pool: what replenish and cleanup do to the cluster, and where they meet. */
module PoolMaintenance {
  import opened Prelude
  import opened Ordering
  import opened JobNames
  import opened IdlePool

  // ---- what the two passes make of a pool ----

  function Without(jobs: Jobs, names: set<string>): Jobs {
    map name | name in jobs && name !in names :: jobs[name]
  }

  function AtLeastZero(n: int): nat {
    if n > 0 then n else 0
  }

  function EffectiveTarget(target: int, extraDemand: int): int {
    if target > AtLeastZero(extraDemand) then target else AtLeastZero(extraDemand)
  }

  /** The jobs replenish asks for: it counts every idle job on the current hash, of any environment. */
  function Shortfall(jobs: Jobs, current: Option<string>, target: int, extraDemand: int): nat {
    AtLeastZero(EffectiveTarget(target, extraDemand) - |Matching(jobs, Idle(jobs), current)|)
  }

  function Replenished(jobs: Jobs, names: seq<string>, hash: string): Jobs {
    map name | name in jobs.Keys + Members(names) :: if name in Members(names) then Job("idle", Some(hash))
        else jobs[name]
  }

  /** The jobs cleanup looks at: idle ones of its own environment. */
  function Candidate(jobs: Jobs, suffix: string): set<string> {
    Ours(Idle(jobs), suffix)
  }

  /**
   * What cleanup leaves; it raises part-way, with only the stale jobs deleted, if a name on the current hash
   * has no date.
   */
  ghost function Cleaned(jobs: Jobs, now: real, current: Option<string>, target: int, suffix: string,
      refused: set<string>): Jobs {
    var ours := Candidate(jobs, suffix);
    var matching := Matching(jobs, ours, current);
    Without(jobs, (ours - if AllDated(matching) then Retained(now, matching, target) else matching) - refused)
  }

  // ---- the cluster ----

  class JobCluster {
    var jobs: Jobs
    /** Jobs whose deletion the API refuses: changed since they were listed, or any other error. */
    const refused: set<string>

    constructor (jobs: Jobs, refused: set<string>)
      ensures this.jobs == jobs && this.refused == refused
    {
      this.jobs := jobs;
      this.refused := refused;
    }

    method List() returns (listing: seq<string>)
      ensures Distinct(listing) && Members(listing) == jobs.Keys
    {
      listing := [];
      var rest := jobs.Keys;
      while rest != {}
        invariant rest <= jobs.Keys && Distinct(listing) && Members(listing) == jobs.Keys - rest
        decreases |rest|
      {
        var name :| name in rest;
        Append(listing, name);
        listing := listing + [name];
        rest := rest - {name};
      }
    }

    method Create(name: string, hash: string)
      requires name !in jobs
      modifies this
      ensures jobs == old(jobs)[name := Job("idle", Some(hash))]
    {
      jobs := jobs[name := Job("idle", Some(hash))];
    }

    /** `_delete_idle_jobs`: one request each, in any order; a refused one is logged and skipped. */
    method Delete(names: set<string>)
      modifies this
      ensures jobs == Without(old(jobs), names - refused)
    {
      var rest := names;
      while rest != {}
        invariant rest <= names
        invariant jobs == Without(old(jobs), (names - rest) - refused)
        decreases |rest|
      {
        var name :| name in rest;
        rest := rest - {name};
        if name !in refused {
          jobs := jobs - {name};
        }
      }
    }
  }

  /** `get_unity_jobs_inventory`: the jobs by status, in the order they are listed. */
  method Inventory(cluster: JobCluster) returns (running: seq<string>, idle: seq<string>)
    ensures Distinct(running) && Members(running) == Running(cluster.jobs)
    ensures Distinct(idle) && Members(idle) == Idle(cluster.jobs)
  {
    var listing := cluster.List();
    running, idle := [], [];
    for i := 0 to |listing|
      invariant Distinct(running) && Members(running) == set name | name in Members(listing[..i])
                && name in Running(cluster.jobs)
      invariant Distinct(idle) && Members(idle) == set name | name in Members(listing[..i])
                && name in Idle(cluster.jobs)
    {
      Next(listing, i);
      var name := listing[i];
      assert name in Members(listing);
      if cluster.jobs[name].status in {"running", "starting"} {
        Append(running, name);
        running := running + [name];
      } else if cluster.jobs[name].status == "idle" {
        Append(idle, name);
        idle := idle + [name];
      }
    }
    assert listing[..|listing|] == listing;
  }

  lemma Next(listing: seq<string>, i: nat)
    requires Distinct(listing) && i < |listing|
    ensures Members(listing[..i + 1]) == Members(listing[..i]) + {listing[i]} && listing[i] !in Members(listing[..i])
  {
  }

  method OfEnvironment(idle: seq<string>, suffix: string) returns (ours: seq<string>)
    requires Distinct(idle)
    ensures Distinct(ours) && Members(ours) == Ours(Members(idle), suffix)
  {
    ours := [];
    for i := 0 to |idle|
      invariant Distinct(ours) && Members(ours) == Ours(Members(idle[..i]), suffix)
    {
      Next(idle, i);
      var wanted := if suffix == "" then !EndsWith(idle[i], "-staging") else EndsWith(idle[i], suffix);
      if wanted {
        Append(ours, idle[i]);
        ours := ours + [idle[i]];
      }
    }
    assert idle[..|idle|] == idle;
  }

  /** `_partition_idle_by_hash`: every job on exactly one side, all of them matching if the hash is unknown. */
  method PartitionByHash(jobs: Jobs, names: seq<string>, current: Option<string>)
    returns (matching: seq<string>, stale: seq<string>)
    requires Distinct(names) && Members(names) <= jobs.Keys
    ensures Distinct(matching) && Members(matching) == Matching(jobs, Members(names), current)
    ensures Distinct(stale) && Members(stale) == Members(names) - Members(matching)
    ensures |matching| + |stale| == |names|
  {
    if current.None? || current.value == "" {
      return names, [];
    }
    matching, stale := [], [];
    for i := 0 to |names|
      invariant Members(names[..i]) <= jobs.Keys
      invariant Distinct(matching) && Members(matching) == Matching(jobs, Members(names[..i]), current)
      invariant Distinct(stale) && Members(stale) == Members(names[..i]) - Members(matching)
      invariant |matching| + |stale| == i
    {
      Next(names, i);
      var name := names[i];
      assert name in Members(names);
      if jobs[name].hash == current {
        Append(matching, name);
        matching := matching + [name];
      } else {
        Append(stale, name);
        stale := stale + [name];
      }
    }
    assert names[..|names|] == names;
  }

  // ---- the two passes ----

  /** Names the create endpoint is about to draw: new, each once, of this environment. */
  ghost predicate NewNames(jobs: Jobs, names: seq<string>, suffix: string) {
    Distinct(names) && Members(names) !! jobs.Keys && forall name :: name in Members(names) ==>
        InEnvironment(name, suffix) && IsJobName(name)
  }

  function HashOf(current: Option<string>, refetched: string): string {
    if current.None? then refetched else current.value
  }

  lemma FirstNames(jobs: Jobs, names: seq<string>, suffix: string, n: nat)
    requires NewNames(jobs, names, suffix) && n <= |names|
    ensures NewNames(jobs, names[..n], suffix) && |Members(names[..n])| == n
  {
    var first := names[..n];
    DistinctMembers(first);
    forall name | name in Members(first) ensures name in Members(names) {
      var i :| 0 <= i < |first| && first[i] == name;
      assert names[i] == name;
    }
  }

  lemma OneMoreName(jobs: Jobs, names: seq<string>, name: string, hash: string)
    requires Distinct(names) && name !in Members(names)
    ensures Replenished(jobs, names + [name], hash) == Replenished(jobs, names, hash)[name := Job("idle", Some(hash))]
  {
    Append(names, name);
  }

  /** One creation request for each name. */
  method CreateJobs(cluster: JobCluster, names: seq<string>, hash: string)
    requires Distinct(names) && Members(names) !! cluster.jobs.Keys
    modifies cluster
    ensures cluster.jobs == Replenished(old(cluster.jobs), names, hash)
  {
    assert cluster.jobs == Replenished(old(cluster.jobs), names[..0], hash);
    for i := 0 to |names|
      invariant cluster.jobs == Replenished(old(cluster.jobs), names[..i], hash)
    {
      Next(names, i);
      assert names[i] in Members(names);
      OneMoreName(old(cluster.jobs), names[..i], names[i], hash);
      assert names[..i + 1] == names[..i] + [names[i]];
      cluster.Create(names[i], hash);
    }
    assert names[..|names|] == names;
  }

  method Replenish(cluster: JobCluster, current: Option<string>, refetched: string, extraDemand: int, minFloor: int,
      factor: int, names: seq<string>, ghost suffix: string)
    returns (created: nat, target: int)
    requires NewNames(cluster.jobs, names, suffix)
    requires Shortfall(cluster.jobs, current, TargetFor(|Running(cluster.jobs)|, minFloor, factor).target,
             extraDemand) <= |names|
    modifies cluster
    ensures target == EffectiveTarget(TargetFor(|old(Running(cluster.jobs))|, minFloor, factor).target, extraDemand)
    ensures created == Shortfall(old(cluster.jobs), current,
            TargetFor(|old(Running(cluster.jobs))|, minFloor, factor).target, extraDemand)
    ensures cluster.jobs == Replenished(old(cluster.jobs), names[..created], HashOf(current, refetched))
  {
    var running, idle := Inventory(cluster);
    DistinctMembers(running);
    var matching, stale := PartitionByHash(cluster.jobs, idle, current);
    DistinctMembers(matching);
    target := TargetFor(|running|, minFloor, factor).target;
    var extra := if extraDemand > 0 then extraDemand else 0;
    if extra > target {
      target := extra;
    }
    created := if target > |matching| then target - |matching| else 0;
    FirstNames(cluster.jobs, names, suffix, created);
    CreateJobs(cluster, names[..created], if current.None? then refetched else current.value);
  }

  datatype CleanupReport = CleanupReport(retained: nat, deletedStaleHash: nat, deletedQuota: nat, target: int)

  /** The three ages of the jobs, or None for a name without a date. */
  method ByAge(now: real, names: seq<string>) returns (buckets: Option<(set<string>, set<string>, set<string>)>)
    ensures buckets.None? <==> !AllDated(Members(names))
    ensures buckets.Some? ==>
              && buckets.value.0 == InBucket(now, VeryNew, Members(names))
              && buckets.value.1 == InBucket(now, New, Members(names))
              && buckets.value.2 == InBucket(now, Old, Members(names))
  {
    var veryNew, new', old': set<string> := {}, {}, {};
    for i := 0 to |names|
      invariant AllDated(Members(names[..i]))
      invariant veryNew == InBucket(now, VeryNew, Members(names[..i]))
      invariant new' == InBucket(now, New, Members(names[..i]))
      invariant old' == InBucket(now, Old, Members(names[..i]))
    {
      var name := names[i];
      MembersOfSum(names[..i], [name]);
      assert names[..i + 1] == names[..i] + [name] && Members([name]) == {name};
      var date := DateOf(name);
      if date.None? {
        assert name in Members(names);
        return None;
      }
      var age := now - Seconds(date.value) as real;
      if age < 60.0 {
        veryNew := veryNew + {name};
      } else if age < 660.0 {
        new' := new' + {name};
      } else {
        old' := old' + {name};
      }
    }
    assert names[..|names|] == names;
    return Some((veryNew, new', old'));
  }

  method Cleanup(cluster: JobCluster, now: real, current: Option<string>, minFloor: int, factor: int, suffix: string)
    returns (report: Option<CleanupReport>)
    modifies cluster
    ensures cluster.jobs == Cleaned(old(cluster.jobs), now, current,
            TargetFor(|old(Running(cluster.jobs))|, minFloor, factor).target, suffix, cluster.refused)
    ensures report.None? <==> !AllDated(Matching(old(cluster.jobs), old(Candidate(cluster.jobs, suffix)), current))
    ensures report.Some? ==>
              var candidates := old(Candidate(cluster.jobs, suffix));
              var matching := Matching(old(cluster.jobs), candidates, current);
              var target := TargetFor(|old(Running(cluster.jobs))|, minFloor, factor).target;
              && report.value.target == target
              && report.value.retained == |Retained(now, matching, target)|
              && report.value.retained + report.value.deletedStaleHash + report.value.deletedQuota == |candidates|
              && report.value.deletedStaleHash + |matching| == |candidates|
  {
    var running, idle := Inventory(cluster);
    DistinctMembers(running);
    var target := TargetFor(|running|, minFloor, factor).target;
    var ours := OfEnvironment(idle, suffix);
    var matching, stale := PartitionByHash(cluster.jobs, ours, current);
    DistinctMembers(ours);
    DistinctMembers(matching);
    ghost var jobs, kept := cluster.jobs, Members(matching);
    cluster.Delete(Members(stale));
    var trimmed := Trim(cluster, now, matching, target);
    if trimmed.Some? {
      RetainsUpToTarget(now, Members(matching), target);
      kept := Retained(now, Members(matching), target);
    }
    TwoDeletions(jobs, Members(ours), Members(matching), Members(stale), kept, cluster.refused);
    if trimmed.None? {
      return None;
    }
    return Some(CleanupReport(trimmed.value.0, |stale|, trimmed.value.1, target));
  }

  lemma TwoDeletions(jobs: Jobs, ours: set<string>, matching: set<string>, stale: set<string>, kept: set<string>,
      refused: set<string>)
    requires stale == ours - matching && kept <= matching <= ours
    ensures Without(Without(jobs, stale - refused), (matching - kept) - refused) ==
            Without(jobs, (ours - kept) - refused)
    ensures Without(jobs, stale - refused) == Without(Without(jobs, stale - refused), (matching - matching) - refused)
  {
  }

  /** The quota part of cleanup: keep the first `target` candidates, delete the other matching jobs. */
  method Trim(cluster: JobCluster, now: real, matching: seq<string>, target: int) returns (counts: Option<(nat, nat)>)
    requires Distinct(matching)
    modifies cluster
    ensures counts.None? <==> !AllDated(Members(matching))
    ensures counts.None? ==> cluster.jobs == old(cluster.jobs)
    ensures counts.Some? ==> counts.value.0 + counts.value.1 == |matching|
    ensures counts.Some? ==> counts.value.0 == |Retained(now, Members(matching), target)|
    ensures counts.Some? ==>
              var surplus := Members(matching) - Retained(now, Members(matching), target);
              cluster.jobs == Without(old(cluster.jobs), surplus - cluster.refused)
  {
    var buckets := ByAge(now, matching);
    if buckets.None? {
      return None;
    }
    var candidates := Ranked(now, buckets.value, Members(matching));
    CandidatesAreTheJobs(now, Members(matching));
    var retain := Prefix(candidates, target);
    DistinctMembers(retain);
    DistinctMembers(matching);
    RetainsUpToTarget(now, Members(matching), target);
    var surplus := Members(matching) - Members(retain);
    cluster.Delete(surplus);
    SplitCount(Members(matching), Members(retain));
    return Some((|retain|, |surplus|));
  }

  lemma SplitCount(all: set<string>, part: set<string>)
    requires part <= all
    ensures |part| + |all - part| == |all|
  {
  }

  method Ranked(now: real, buckets: (set<string>, set<string>, set<string>), ghost names: set<string>)
    returns (candidates: seq<string>)
    requires buckets == (InBucket(now, VeryNew, names), InBucket(now, New, names), InBucket(now, Old, names))
    ensures candidates == Candidates(now, names)
  {
    var veryNew := Sort(true, buckets.0);
    var new' := Sort(true, buckets.1);
    var old' := Sort(true, buckets.2);
    OrderedIsUnique(true, veryNew, Sorted(true, buckets.0));
    OrderedIsUnique(true, new', Sorted(true, buckets.1));
    OrderedIsUnique(true, old', Sorted(true, buckets.2));
    return veryNew + new' + old';
  }

  // ---- where the two passes meet ----

  lemma CountSum(a: set<string>, b: set<string>)
    requires a !! b
    ensures |a + b| == |a| + |b|
  {
  }

  /** New jobs are idle, on the current hash and in this environment; nothing else changes. */
  lemma CreatedJobs(jobs: Jobs, current: Option<string>, refetched: string, names: seq<string>, suffix: string)
    requires NewNames(jobs, names, suffix)
    ensures Matching(Replenished(jobs, names, HashOf(current, refetched)),
            Idle(Replenished(jobs, names, HashOf(current, refetched))), current)
            == Matching(jobs, Idle(jobs), current) + Members(names)
    ensures Matching(Replenished(jobs, names, HashOf(current, refetched)),
            Candidate(Replenished(jobs, names, HashOf(current, refetched)), suffix), current)
            == Matching(jobs, Candidate(jobs, suffix), current) + Members(names)
    ensures Running(Replenished(jobs, names, HashOf(current, refetched))) == Running(jobs)
  {
    var after := Replenished(jobs, names, HashOf(current, refetched));
    assert Idle(after) == Idle(jobs) + Members(names);
    assert Candidate(after, suffix) == Candidate(jobs, suffix) + Members(names);
    forall name | name in Members(names) ensures OnHash(after[name], current) {
    }
  }

  /** Replenish brings the jobs on the current hash to the effective target, and never above it by creating. */
  lemma ReplenishFillsTheGap(jobs: Jobs, current: Option<string>, refetched: string, target: int, extraDemand: int,
      names: seq<string>, suffix: string)
    requires NewNames(jobs, names, suffix) && Shortfall(jobs, current, target, extraDemand) <= |names|
    ensures var created := names[..Shortfall(jobs, current, target, extraDemand)];
            var after := Replenished(jobs, created, HashOf(current, refetched));
            var before := |Matching(jobs, Idle(jobs), current)|;
            |Matching(after, Idle(after), current)| ==
                if before > EffectiveTarget(target, extraDemand) then before else EffectiveTarget(target, extraDemand)
  {
    var n := Shortfall(jobs, current, target, extraDemand);
    FirstNames(jobs, names, suffix, n);
    CreatedJobs(jobs, current, refetched, names[..n], suffix);
    CountSum(Matching(jobs, Idle(jobs), current), Members(names[..n]));
  }

  /**
   * Cleanup with no request refused leaves this environment with min(target, matching) idle jobs, all on
   * the current hash, and touches no job that is not an idle one of this environment.
   */
  lemma CleanupKeeps(jobs: Jobs, now: real, current: Option<string>, target: nat, suffix: string)
    requires AllDated(Matching(jobs, Candidate(jobs, suffix), current))
    ensures var matching := Matching(jobs, Candidate(jobs, suffix), current);
            var after := Cleaned(jobs, now, current, target, suffix, {});
            && Candidate(after, suffix) == Retained(now, matching, target)
            && Candidate(after, suffix) == Matching(after, Candidate(after, suffix), current)
            && |Candidate(after, suffix)| == (if target < |matching| then target else |matching|)
            && forall name :: name in jobs && name !in Candidate(jobs, suffix) ==>
                name in after && after[name] == jobs[name]
  {
    var matching := Matching(jobs, Candidate(jobs, suffix), current);
    RetainsUpToTarget(now, matching, target);
    KeepOnly(jobs, suffix, Retained(now, matching, target), current);
  }

  /** Deleting all candidates but some jobs on the current hash leaves those. */
  lemma KeepOnly(jobs: Jobs, suffix: string, kept: set<string>, current: Option<string>)
    requires kept <= Matching(jobs, Candidate(jobs, suffix), current)
    ensures var after := Without(jobs, (Candidate(jobs, suffix) - kept) - {});
            && Candidate(after, suffix) == kept
            && Matching(after, kept, current) == kept
            && forall name :: name in jobs && name !in Candidate(jobs, suffix) ==>
                name in after && after[name] == jobs[name]
  {
  }

  /**
   * Replenish counts idle jobs of every environment listed; cleanup keeps only its own. With `ours` jobs of
   * this environment on the current hash and `foreign` ones, the pair leaves the target at most, and less by
   * what the foreign ones hide.
   */
  lemma MaintenanceLeaves(jobs: Jobs, now: real, current: Option<string>, refetched: string, target: nat,
      extraDemand: int, names: seq<string>, suffix: string)
    requires NewNames(jobs, names, suffix) && Shortfall(jobs, current, target, extraDemand) <= |names|
    requires AllDated(Matching(jobs, Candidate(jobs, suffix), current))
    ensures var ours := |Matching(jobs, Candidate(jobs, suffix), current)|;
            var foreign := |Matching(jobs, Idle(jobs), current)| - ours;
            var replenished := Replenished(jobs, names[..Shortfall(jobs, current, target, extraDemand)],
                HashOf(current, refetched));
            var after := Cleaned(replenished, now, current, target, suffix, {});
            var reached := ours + AtLeastZero(EffectiveTarget(target, extraDemand) - ours - foreign);
            && Running(replenished) == Running(jobs)
            && Candidate(after, suffix) == Matching(after, Candidate(after, suffix), current)
            && |Candidate(after, suffix)| == if reached < target then reached else target
  {
    var n := Shortfall(jobs, current, target, extraDemand);
    FirstNames(jobs, names, suffix, n);
    CreatedJobs(jobs, current, refetched, names[..n], suffix);
    CountSum(Matching(jobs, Candidate(jobs, suffix), current), Members(names[..n]));
    var replenished := Replenished(jobs, names[..n], HashOf(current, refetched));
    forall name | name in Matching(replenished, Candidate(replenished, suffix), current) ensures DateOf(name).Some? {
      if name in Members(names[..n]) {
        assert IsJobName(name);
      }
    }
    CleanupKeeps(replenished, now, current, target, suffix);
    assert Matching(jobs, Candidate(jobs, suffix), current) <= Matching(jobs, Idle(jobs), current);
  }

  /** So it ends on the target if and only if it had enough already or the foreign jobs do not hide the shortfall. */
  lemma MaintenanceConvergesIff(jobs: Jobs, now: real, current: Option<string>, refetched: string, target: nat,
      extraDemand: int, names: seq<string>, suffix: string)
    requires NewNames(jobs, names, suffix) && Shortfall(jobs, current, target, extraDemand) <= |names|
    requires AllDated(Matching(jobs, Candidate(jobs, suffix), current))
    ensures var ours := |Matching(jobs, Candidate(jobs, suffix), current)|;
            var foreign := |Matching(jobs, Idle(jobs), current)| - ours;
            var replenished := Replenished(jobs, names[..Shortfall(jobs, current, target, extraDemand)],
                HashOf(current, refetched));
            var after := Cleaned(replenished, now, current, target, suffix, {});
            && Running(replenished) == Running(jobs)
            && Candidate(after, suffix) == Matching(after, Candidate(after, suffix), current)
            && (|Candidate(after, suffix)| == target <==>
                ours >= target || EffectiveTarget(target, extraDemand) - foreign >= target)
  {
    MaintenanceLeaves(jobs, now, current, refetched, target, extraDemand, names, suffix);
  }

  const PRODUCTION_JOB := "unity-2025-01-02-03-04-05-u12ab"

  /**
   * A staging pool that never fills: it wants one job, and the only one listed was created from production, on
   * the same hash.
   */
  lemma ForeignJobHidesShortfall(now: real, refetched: string, names: seq<string>)
    requires var jobs := map[PRODUCTION_JOB := Job("idle", Some("hash"))]; NewNames(jobs, names, "-staging")
    ensures var jobs := map[PRODUCTION_JOB := Job("idle", Some("hash"))];
            && Shortfall(jobs, Some("hash"), 1, 0) == 0
            && Candidate(Cleaned(Replenished(jobs, names[..0], "hash"), now, Some("hash"), 1, "-staging", {}),
                "-staging") == {}
  {
    var jobs := map[PRODUCTION_JOB := Job("idle", Some("hash"))];
    assert PRODUCTION_JOB[|PRODUCTION_JOB| - 1] == 'b' && !EndsWith(PRODUCTION_JOB, "-staging");
    assert Idle(jobs) == {PRODUCTION_JOB} && Candidate(jobs, "-staging") == {};
    assert Matching(jobs, Idle(jobs), Some("hash")) == {PRODUCTION_JOB};
    MaintenanceLeaves(jobs, now, Some("hash"), refetched, 1, 0, names, "-staging");
  }

  /** Where only this environment has jobs on the current hash, maintenance always ends on the target. */
  lemma SoleEnvironmentConverges(jobs: Jobs, now: real, current: Option<string>, refetched: string, target: nat,
      extraDemand: int, names: seq<string>, suffix: string)
    requires NewNames(jobs, names, suffix) && Shortfall(jobs, current, target, extraDemand) <= |names|
    requires AllDated(Matching(jobs, Candidate(jobs, suffix), current))
    requires Matching(jobs, Idle(jobs), current) == Matching(jobs, Candidate(jobs, suffix), current)
    ensures var replenished := Replenished(jobs, names[..Shortfall(jobs, current, target, extraDemand)],
            HashOf(current, refetched));
            |Candidate(Cleaned(replenished, now, current, target, suffix, {}), suffix)| == target
  {
    MaintenanceConvergesIff(jobs, now, current, refetched, target, extraDemand, names, suffix);
  }
}
