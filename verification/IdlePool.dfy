/** `replenish_idle_pool` and `cleanup_idle_pool`: the warm pool of runtime jobs kept at a target size. */
module IdlePool {
  import opened Prelude
  import opened Ordering
  import opened JobNames

  /** The `unity-status` and `unity-image-hash` labels of a Kubernetes job. */
  datatype Job = Job(status: string, hash: Option<string>)

  type Jobs = map<string, Job>

  // ---- the target ----

  datatype Target = Target(target: int, minFloor: int, demandBuffer: int)

  /**
   * `get_target_idle_count`: the buffer is the least number of jobs that, times the factor, covers the running
   * ones.
   */
  function TargetFor(running: nat, minFloor: int, factor: int): (t: Target)
    ensures t.minFloor == minFloor
    ensures factor <= 0 ==> t.target == minFloor && t.demandBuffer == 0
    ensures factor > 0 ==> t.demandBuffer >= 0
    ensures factor > 0 ==> t.target == if minFloor > t.demandBuffer then minFloor else t.demandBuffer
    ensures factor > 0 ==> running <= factor * t.demandBuffer < running + factor
  {
    if factor <= 0 then
      Target(minFloor, minFloor, 0)
    else
      var buffer := -((0 - running) / factor);
      CeilingBounds(running, factor, (0 - running) / factor);
      Target(if minFloor > buffer then minFloor else buffer, minFloor, buffer)
  }

  lemma CeilingBounds(running: nat, factor: int, quotient: int)
    requires factor > 0 && quotient == (0 - running) / factor
    ensures running <= factor * -quotient < running + factor && quotient <= 0
  {
  }

  // ---- which jobs ----

  function Running(jobs: Jobs): set<string> {
    set name | name in jobs && jobs[name].status in {"running", "starting"}
  }

  function Idle(jobs: Jobs): set<string> {
    set name | name in jobs && jobs[name].status == "idle"
  }

  /** An unknown current hash matches everything. */
  predicate OnHash(job: Job, current: Option<string>) {
    current.None? || current.value == "" || job.hash == current
  }

  function Matching(jobs: Jobs, names: set<string>, current: Option<string>): set<string>
    requires names <= jobs.Keys
  {
    set name | name in names && OnHash(jobs[name], current)
  }

  predicate EndsWith(name: string, suffix: string) {
    |suffix| <= |name| && name[|name| - |suffix|..] == suffix
  }

  lemma EndsWithMeans(name: string, suffix: string)
    ensures EndsWith(name, suffix) <==> exists front: string :: name == front + suffix
  {
    if EndsWith(name, suffix) {
      assert name == name[..|name| - |suffix|] + suffix;
    }
  }

  /** `_idle_job_matches_env`. */
  predicate InEnvironment(name: string, suffix: string) {
    if suffix != "" then EndsWith(name, suffix) else !EndsWith(name, "-staging")
  }

  function Ours(names: set<string>, suffix: string): set<string> {
    set name | name in names && InEnvironment(name, suffix)
  }

  // ---- which jobs cleanup keeps ----

  /** The moment a name is dated, in seconds. */
  function Time(name: string): int {
    match DateOf(name)
    case Some(date) => Seconds(date)
    case None => 0
  }

  datatype Bucket = VeryNew | New | Old

  function BucketOf(now: real, name: string): Bucket {
    var age := now - Time(name) as real;
    if age < 60.0 then VeryNew else if age < 660.0 then New else Old
  }

  ghost predicate AllDated(names: set<string>) {
    forall name :: name in names ==> DateOf(name).Some?
  }

  function InBucket(now: real, bucket: Bucket, names: set<string>): set<string> {
    set name | name in names && BucketOf(now, name) == bucket
  }

  /** The three buckets, each sorted newest name first, one after the other. */
  ghost function Candidates(now: real, names: set<string>): seq<string> {
    Sorted(true, InBucket(now, VeryNew, names)) + Sorted(true, InBucket(now, New, names))
        + Sorted(true, InBucket(now, Old, names))
  }

  /** Python's `s[:n]`: a negative `n` counts from the end. */
  function Prefix<T>(s: seq<T>, n: int): (r: seq<T>)
    ensures r <= s && |r| == if n >= |s| then |s| else if n >= 0 then n else if |s| + n >= 0 then |s| + n else 0
  {
    if n >= |s| then s else if n >= 0 then s[..n] else if |s| + n >= 0 then s[..|s| + n] else []
  }

  ghost function Retained(now: real, names: set<string>, target: int): set<string> {
    Members(Prefix(Candidates(now, names), target))
  }

  /** A name of the form the create endpoint gives, dated by its own stamp. */
  ghost predicate IsJobName(name: string) {
    exists s: Stamp, rest: string :: IsDate(s) && name == JobName(s, rest) && DateOf(name) == Some(s)
  }

  ghost predicate WellNamed(names: set<string>) {
    forall name :: name in names ==> IsJobName(name)
  }

  lemma NewerNameIsNoOlder(now: real, a: string, b: string)
    requires IsJobName(a) && IsJobName(b) && Before(a, b)
    ensures Time(a) <= Time(b)
  {
    var s: Stamp, x: string :| IsDate(s) && a == JobName(s, x) && DateOf(a) == Some(s);
    var t: Stamp, y: string :| IsDate(t) && b == JobName(t, y) && DateOf(b) == Some(t);
    NamesFollowTime(s, x, t, y);
  }

  lemma MembersOfSum<T>(a: seq<T>, b: seq<T>)
    ensures Members(a + b) == Members(a) + Members(b)
  {
    var c := a + b;
    forall x | x in Members(a) + Members(b) ensures x in Members(c) {
      if x in Members(a) {
        var i :| 0 <= i < |a| && a[i] == x;
        assert c[i] == x;
      } else {
        var i :| 0 <= i < |b| && b[i] == x;
        assert c[|a| + i] == x;
      }
    }
  }

  lemma OrderedSum(reverse: bool, a: seq<string>, b: seq<string>)
    requires Ordered(reverse, a) && Ordered(reverse, b)
    requires forall x, y :: x in Members(a) && y in Members(b) ==> InOrder(reverse, x, y)
    ensures Ordered(reverse, a + b)
  {
  }

  /** Sorting the age buckets separately and concatenating them is one descending sort. */
  lemma BucketsRefineOneSort(now: real, names: set<string>)
    requires WellNamed(names)
    ensures Candidates(now, names) == Sorted(true, names)
  {
    var veryNew, new', old' := InBucket(now, VeryNew, names), InBucket(now, New, names), InBucket(now, Old, names);
    BucketsDescend(now, names);
    var recent := Sorted(true, veryNew) + Sorted(true, new');
    OrderedSum(true, Sorted(true, veryNew), Sorted(true, new'));
    MembersOfSum(Sorted(true, veryNew), Sorted(true, new'));
    OrderedSum(true, recent, Sorted(true, old'));
    MembersOfSum(recent, Sorted(true, old'));
    assert Members(Candidates(now, names)) == names;
    OrderedIsUnique(true, Candidates(now, names), Sorted(true, names));
  }

  function Rank(bucket: Bucket): nat {
    match bucket
    case VeryNew => 0
    case New => 1
    case Old => 2
  }

  ghost predicate YoungerBucket(now: real, x: string, y: string) {
    Rank(BucketOf(now, x)) < Rank(BucketOf(now, y))
  }

  lemma BucketsDescend(now: real, names: set<string>)
    requires WellNamed(names)
    ensures forall x, y :: x in names && y in names && YoungerBucket(now, x, y) ==> InOrder(true, x, y)
  {
    forall x, y | x in names && y in names && YoungerBucket(now, x, y) ensures InOrder(true, x, y) {
      BeforeIsTotal(x, y);
      if Before(x, y) {
        NewerNameIsNoOlder(now, x, y);
      }
    }
  }

  /** However old the jobs are, the candidates are the jobs, each once. */
  lemma CandidatesAreTheJobs(now: real, names: set<string>)
    ensures Distinct(Candidates(now, names)) && Members(Candidates(now, names)) == names
    ensures |Candidates(now, names)| == |names|
  {
    var veryNew, new', old' := Sorted(true, InBucket(now, VeryNew, names)), Sorted(true,
        InBucket(now, New, names)), Sorted(true, InBucket(now, Old, names));
    OrderedIsDistinct(true, veryNew);
    OrderedIsDistinct(true, new');
    OrderedIsDistinct(true, old');
    DistinctSum(veryNew, new');
    DistinctSum(veryNew + new', old');
    assert Members(Candidates(now, names)) == names;
    DistinctMembers(Candidates(now, names));
  }

  lemma DistinctSum(a: seq<string>, b: seq<string>)
    requires Distinct(a) && Distinct(b) && Members(a) !! Members(b)
    ensures Distinct(a + b) && Members(a + b) == Members(a) + Members(b)
  {
    MembersOfSum(a, b);
    forall i, j | 0 <= i < |a| && 0 <= j < |b| ensures a[i] != b[j] {
      assert a[i] in Members(a) && b[j] in Members(b);
    }
  }

  /** Cleanup keeps as many jobs as the target allows, whatever their names. */
  lemma RetainsUpToTarget(now: real, names: set<string>, target: int)
    ensures Retained(now, names, target) <= names
    ensures |Retained(now, names, target)| ==
            if target >= |names| then |names| else if target >= 0 then target else if |names|
                + target >= 0 then |names| + target else 0
  {
    CandidatesAreTheJobs(now, names);
    var all := Candidates(now, names);
    var first := Prefix(all, target);
    assert Distinct(first);
    DistinctMembers(first);
    forall name | name in Members(first) ensures name in names {
      var i :| 0 <= i < |first| && first[i] == name;
      assert all[i] == name && name in Members(all);
    }
  }

  lemma PrefixIsFirst(names: set<string>, target: int)
    ensures forall kept, dropped ::
              kept in Members(Prefix(Sorted(true, names), target)) && dropped in names
                  && dropped !in Members(Prefix(Sorted(true, names), target)) ==>
                Before(dropped, kept)
  {
  }

  /** Cleanup never gives up a job newer than one it keeps. */
  lemma KeepsTheNewest(now: real, names: set<string>, target: int)
    requires WellNamed(names)
    ensures forall kept, dropped ::
              kept in Retained(now, names, target) && dropped in names && dropped !in Retained(now, names, target) ==>
              Time(dropped) <= Time(kept)
  {
    BucketsRefineOneSort(now, names);
    PrefixIsFirst(names, target);
    forall kept, dropped | kept in Retained(now, names, target) && dropped in names
        && dropped !in Retained(now, names, target)
      ensures Time(dropped) <= Time(kept)
    {
      NewerNameIsNoOlder(now, dropped, kept);
    }
  }
}
