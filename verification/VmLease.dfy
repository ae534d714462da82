/**
 * The VM-assignment lease without concurrency: a log of what was committed, what the log says each
 * binding's lease is, and which logs are legal. `VmProtocol` shows that the concurrent protocol
 * produces no others; what a legal log guarantees is proved here.
 */
module VmLease {
  import opened Prelude
  import opened Sessions
  import opened VmAssignment

  /** A committed write, with the version of the session it replaced and the clock at the commit. */
  datatype Event =
    | Claimed(binding: string, attempt: string, observedAt: Time, staleAfter: Time, at: Time, before: Session)
    | Assigned(binding: string, attempt: string, vm: string, at: Time, before: Session)
    | Settled(binding: string, attempt: string, state: string, at: Time, before: Session)
    | Rewritten(binding: string, lease: Lease, at: Time)  // another writer changed what the binding shows

  datatype Lease = Free | Taken(attempt: string, observedAt: Time) | Over(attempt: string) | Owned(vm: string)

  predicate IsOutcome(e: Event) { e.Assigned? || e.Settled? }

  function After(e: Event): Lease {
    match e
    case Claimed(_, attempt, observedAt, _, _, _) => Taken(attempt, observedAt)
    case Assigned(_, _, vm, _, _) => Owned(vm)
    case Settled(_, attempt, _, _, _) => Over(attempt)
    case Rewritten(_, lease, _) => lease
  }

  /** The lease on a binding: what its latest event left. */
  function LeaseOf(log: seq<Event>, b: string): Lease {
    if log == [] then Free
    else if log[|log| - 1].binding == b then After(log[|log| - 1])
    else LeaseOf(log[..|log| - 1], b)
  }

  ghost predicate NeverClaimed(log: seq<Event>, attempt: string) {
    forall k :: 0 <= k < |log| && log[k].Claimed? ==> log[k].attempt != attempt
  }

  /** A claim put this lease on the binding once. */
  ghost predicate WasTaken(log: seq<Event>, b: string, attempt: string, observedAt: Time) {
    exists k :: 0 <= k < |log| && log[k].Claimed? && log[k].binding == b && log[k].attempt == attempt
        && log[k].observedAt == observedAt
  }

  /** `e` may follow `log`; other writers may clear or restore a lease, but forge no attempt. */
  ghost predicate Allowed(log: seq<Event>, e: Event) {
    match e
    case Claimed(b, attempt, observedAt, staleAfter, at, before) =>
      && Live(before, b) && before.status.binding.vmRef.None?
      && NeverClaimed(log, attempt)
      && observedAt <= at
      && !LeaseOf(log, b).Owned?
      && (LeaseOf(log, b).Taken? ==> at - LeaseOf(log, b).observedAt >= staleAfter)
    case Assigned(b, attempt, _, _, before) =>
      && Live(before, b) && HeldBy(before.status.binding, attempt) && before.status.binding.vmRef.None?
      && LeaseOf(log, b).Taken? && LeaseOf(log, b).attempt == attempt
    case Settled(b, attempt, _, _, before) =>
      && Live(before, b) && HeldBy(before.status.binding, attempt) && before.status.binding.vmRef.None?
      && LeaseOf(log, b).Taken? && LeaseOf(log, b).attempt == attempt
    case Rewritten(b, lease, _) =>
      && (lease.Taken? ==> WasTaken(log, b, lease.attempt, lease.observedAt))
      && (lease.Owned? ==> lease.vm != "")
  }

  ghost predicate AllowedAt(log: seq<Event>, i: nat)
    requires i < |log|
  {
    Allowed(log[..i], log[i])
  }

  ghost predicate Legal(log: seq<Event>) {
    forall i: nat :: i < |log| ==> AllowedAt(log, i)
  }

  lemma LegalAppend(log: seq<Event>, e: Event)
    requires Legal(log) && Allowed(log, e)
    ensures Legal(log + [e])
  {
    forall i: nat | i < |log + [e]| ensures AllowedAt(log + [e], i) {
      assert (log + [e])[..i] == log[..i];
      if i < |log| {
        assert AllowedAt(log, i);
      } else {
        assert log[..i] == log;
      }
    }
  }

  lemma LeaseAppend(log: seq<Event>, e: Event, b: string)
    ensures LeaseOf(log + [e], b) == if e.binding == b then After(e) else LeaseOf(log, b)
  {
  }

  /** A binding's lease is what the last event on it left. */
  lemma {:induction false} LastOn(log: seq<Event>, b: string, n: nat) returns (m: nat)
    requires n <= |log| && LeaseOf(log[..n], b) != Free
    ensures m < n && log[m].binding == b && LeaseOf(log[..n], b) == After(log[m])
    ensures forall k :: m < k < n ==> log[k].binding != b
  {
    assert log[..n][..n - 1] == log[..n - 1];
    if log[n - 1].binding == b {
      m := n - 1;
    } else {
      m := LastOn(log, b, n - 1);
    }
  }

  /** A taken lease goes back to the claim of its attempt, by way of a restoring write perhaps. */
  lemma ClaimBehind(log: seq<Event>, b: string, n: nat) returns (k: nat)
    requires Legal(log) && n <= |log| && LeaseOf(log[..n], b).Taken?
    ensures k < n && log[k].Claimed? && log[k].binding == b
    ensures LeaseOf(log[..n], b) == Taken(log[k].attempt, log[k].observedAt)
  {
    var m := LastOn(log, b, n);
    if log[m].Claimed? {
      k := m;
    } else {
      assert AllowedAt(log, m);
      var lease := log[m].lease;
      k :| 0 <= k < m && log[..m][k].Claimed? && log[..m][k].binding == b && log[..m][k].attempt == lease.attempt
          && log[..m][k].observedAt == lease.observedAt;
    }
  }

  lemma ClaimsDiffer(log: seq<Event>, i: nat, j: nat)
    requires Legal(log) && i < j < |log| && log[i].Claimed? && log[j].Claimed?
    ensures log[i].attempt != log[j].attempt
  {
    assert log[..j][i] == log[i];
    assert AllowedAt(log, j);
  }

  /** An attempt id is claimed once at most. */
  lemma ClaimedOnce(log: seq<Event>, i: nat, j: nat)
    requires Legal(log) && i < |log| && j < |log|
    requires log[i].Claimed? && log[j].Claimed? && log[i].attempt == log[j].attempt
    ensures i == j
  {
    if i < j {
      ClaimsDiffer(log, i, j);
    } else if j < i {
      ClaimsDiffer(log, j, i);
    }
  }

  /** Another writer changed the binding's lease strictly between two events. */
  ghost predicate RewrittenBetween(log: seq<Event>, b: string, i: nat, j: nat) {
    exists r :: i < r < j && r < |log| && log[r].Rewritten? && log[r].binding == b
  }

  /** Another writer put this attempt's lease back on the binding strictly between two events. */
  ghost predicate RestoredBetween(log: seq<Event>, b: string, attempt: string, i: nat, j: nat) {
    exists r :: i < r < j && r < |log| && Restores(log[r]) && log[r].binding == b && log[r].lease.attempt == attempt
  }

  predicate Restores(e: Event) {
    e.Rewritten? && e.lease.Taken?
  }

  predicate SecondOutcome(e: Event, later: Event) {
    IsOutcome(e) && IsOutcome(later) && e.attempt == later.attempt
  }

  predicate SecondVm(e: Event, later: Event) {
    e.Assigned? && later.Assigned? && e.binding == later.binding
  }

  predicate OutcomeOf(e: Event, claim: Event) {
    claim.Claimed? && IsOutcome(e) && e.attempt == claim.attempt
  }

  /** An outcome goes back to the claim of its own attempt. */
  lemma OutcomeFollowsItsClaim(log: seq<Event>, i: nat) returns (k: nat)
    requires Legal(log) && i < |log| && IsOutcome(log[i])
    ensures k < i && log[k].Claimed? && log[k].binding == log[i].binding && log[k].attempt == log[i].attempt
  {
    assert AllowedAt(log, i);
    k := ClaimBehind(log, log[i].binding, i);
  }

  /**
   * An outcome after event `i` of its binding: the lease was its attempt's by that event, by its own later
   * claim, or by a rewrite.
   */
  lemma WhyHeld(log: seq<Event>, i: nat, j: nat) returns (m: nat)
    requires Legal(log) && i < j < |log| && log[i].binding == log[j].binding && IsOutcome(log[j])
    ensures i <= m < j && log[m].binding == log[j].binding && After(log[m]).Taken?
    ensures After(log[m]).attempt == log[j].attempt
    ensures log[m].Claimed? || log[m].Rewritten?
  {
    assert AllowedAt(log, j);
    m := LastOn(log, log[j].binding, j);
  }

  /** An attempt commits a second outcome only after another writer restored its lease. */
  lemma OneOutcomePerAttempt(log: seq<Event>, i: nat, j: nat)
    requires Legal(log) && i < j < |log|
    requires SecondOutcome(log[i], log[j])
    ensures log[i].binding == log[j].binding && RestoredBetween(log, log[i].binding, log[i].attempt, i, j)
  {
    var k := OutcomeFollowsItsClaim(log, i);
    var l := OutcomeFollowsItsClaim(log, j);
    ClaimedOnce(log, k, l);
    var m := WhyHeld(log, i, j);
    if log[m].Claimed? {
      ClaimedOnce(log, k, m);
    }
  }

  /** Two claims of one binding: where both committed, the later one took the lease from the earlier. */
  predicate Supersedes(e: Event, later: Event) {
    e.Claimed? && later.Claimed? && e.binding == later.binding
  }

  /**
   * An attempt that another claim of the same binding superseded commits only after another writer restored
   * its lease.
   */
  lemma SupersededNeverCommits(log: seq<Event>, i: nat, j: nat, k: nat)
    requires Legal(log) && i < j < k < |log|
    requires Supersedes(log[i], log[j]) && OutcomeOf(log[k], log[i])
    ensures RestoredBetween(log, log[i].binding, log[i].attempt, j, k)
  {
    var l := OutcomeFollowsItsClaim(log, k);
    ClaimedOnce(log, i, l);
    var m := WhyHeld(log, j, k);
    if log[m].Claimed? {
      ClaimedOnce(log, i, m);
    }
  }

  /** Event `r` takes the VM off the binding. */
  ghost predicate Vacates(log: seq<Event>, b: string, r: nat)
    requires r < |log|
  {
    log[r].Rewritten? && log[r].binding == b && LeaseOf(log[..r], b).Owned? && !log[r].lease.Owned?
  }

  /** A binding that had a VM and has none was vacated by another writer: no claim and no outcome does that. */
  lemma {:induction false} OnlyRewritesVacate(log: seq<Event>, b: string, i: nat, n: nat) returns (r: nat)
    requires Legal(log) && i < n <= |log| && LeaseOf(log[..i + 1], b).Owned? && !LeaseOf(log[..n], b).Owned?
    ensures i < r < n && Vacates(log, b, r)
    decreases n
  {
    assert log[..n][..n - 1] == log[..n - 1];
    assert AllowedAt(log, n - 1);
    if LeaseOf(log[..n - 1], b).Owned? {
      r := n - 1;
    } else {
      r := OnlyRewritesVacate(log, b, i, n - 1);
    }
  }

  /** Until another writer touches it, nothing is committed on a binding that has its VM. */
  lemma {:induction false} OwnedIsFinal(log: seq<Event>, i: nat, n: nat)
    requires Legal(log) && i < n <= |log| && log[i].Assigned? && !RewrittenBetween(log, log[i].binding, i, n)
    ensures LeaseOf(log[..n], log[i].binding) == Owned(log[i].vm)
    ensures forall m :: i < m < n ==> log[m].binding != log[i].binding
    decreases n
  {
    assert log[..n][..n - 1] == log[..n - 1];
    if i < n - 1 {
      OwnedIsFinal(log, i, n - 1);
      assert AllowedAt(log, n - 1);
    }
  }

  /** Between two VMs committed for one binding lies a write by somebody else that took the first one off it. */
  lemma VacatedBetweenAssignments(log: seq<Event>, i: nat, j: nat) returns (r: nat)
    requires Legal(log) && i < j < |log|
    requires SecondVm(log[i], log[j])
    ensures i < r < j && Vacates(log, log[i].binding, r)
  {
    assert AllowedAt(log, j);
    assert log[..i + 1][..i] == log[..i];
    r := OnlyRewritesVacate(log, log[i].binding, i, j);
  }

  ghost predicate Chronological(log: seq<Event>) {
    forall i, j :: 0 <= i < j < |log| ==> log[i].at <= log[j].at
  }

  /**
   * Lease spacing: when two claims of one binding succeed with no outcome and no rewriting between
   * them, the later commits no sooner than the stale limit after the earlier's recorded `observedAt`.
   */
  lemma ClaimsAreSpaced(log: seq<Event>, i: nat, j: nat, limit: Time)
    requires Legal(log) && Chronological(log) && i < j < |log|
    requires log[i].Claimed? && log[j].Claimed? && log[i].binding == log[j].binding
    requires forall m :: i < m <= j && log[m].binding == log[i].binding ==>
             log[m].Claimed? && log[m].staleAfter >= limit
    ensures log[j].at - log[i].observedAt >= limit
  {
    var next := i + 1;
    while log[next].binding != log[i].binding
      invariant i < next <= j
      invariant forall m :: i < m < next ==> log[m].binding != log[i].binding
      decreases j - next
    {
      next := next + 1;
    }
    LeaseSince(log, i, next);
    TakeoverWaits(log, next);
    assert log[next].at <= log[j].at;
  }

  /** A claim over a taken lease waited for the limit. */
  lemma TakeoverWaits(log: seq<Event>, i: nat)
    requires Legal(log) && i < |log| && log[i].Claimed? && LeaseOf(log[..i], log[i].binding).Taken?
    ensures log[i].at - LeaseOf(log[..i], log[i].binding).observedAt >= log[i].staleAfter
  {
    assert AllowedAt(log, i);
  }

  /** With nothing on a binding since event `k`, its lease is what `k` left. */
  lemma {:induction false} LeaseSince(log: seq<Event>, k: nat, n: nat)
    requires k < n <= |log| && forall m :: k < m < n ==> log[m].binding != log[k].binding
    ensures LeaseOf(log[..n], log[k].binding) == After(log[k])
    decreases n
  {
    assert log[..n][..n - 1] == log[..n - 1];
    if k < n - 1 {
      LeaseSince(log, k, n - 1);
    }
  }
}
