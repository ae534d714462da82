/** `classify_stale_running`: the fate of each stale running job, decided from sessions read beforehand. */
module StaleJobs {

  /** A job as listed; a missing name or assistant id is the empty text. */
  datatype StaleJob = StaleJob(name: string, assistant: string)

  datatype SessionState = SessionState(missing: bool, inspectionFailed: bool, boundJob: string, terminal: bool,
      desiredState: string, hasActiveCall: bool)

  /** A session nobody read: an empty dictionary. */
  const UNREAD := SessionState(false, false, "", false, "", false)

  type Sessions = map<string, SessionState>

  function StateOf(sessions: Sessions, assistant: string): SessionState {
    if assistant in sessions then sessions[assistant] else UNREAD
  }

  predicate HasOwner(job: StaleJob) {
    job.assistant != "" && job.assistant != "unknown"
  }

  /** The job an inspected session that is not over names as its binding. */
  predicate IsLiveBinding(job: StaleJob, sessions: Sessions) {
    var state := StateOf(sessions, job.assistant);
    HasOwner(job) && !state.missing && !state.inspectionFailed && state.boundJob == job.name && !state.terminal
  }

  /** The job may still be somebody's: its session could not be inspected, or is bound to it. */
  predicate MayBeInUse(job: StaleJob, sessions: Sessions) {
    IsLiveBinding(job, sessions) || (HasOwner(job) && !StateOf(sessions, job.assistant).missing
        && StateOf(sessions, job.assistant).inspectionFailed)
  }

  /** Stopping its session is due: a live binding, not already stopping, and nobody on a call. */
  predicate StopIsDue(job: StaleJob, sessions: Sessions) {
    IsLiveBinding(job, sessions) && StateOf(sessions, job.assistant).desiredState != "Stopped"
        && !StateOf(sessions, job.assistant).hasActiveCall
  }

  function Names(jobs: seq<StaleJob>): seq<string> {
    seq(|jobs|, i requires 0 <= i < |jobs| => jobs[i].name)
  }

  function Keep(jobs: seq<StaleJob>, keep: StaleJob -> bool): seq<StaleJob> {
    if jobs == [] then [] else
      var before := Keep(jobs[..|jobs| - 1], keep);
      if keep(jobs[|jobs| - 1]) then before + [jobs[|jobs| - 1]] else before
  }

  /** The stops of a list: each assistant with the last of its jobs that is due. */
  function Stops(jobs: seq<StaleJob>, sessions: Sessions): map<string, string> {
    if jobs == [] then map[] else
      var before, last := Stops(jobs[..|jobs| - 1], sessions), jobs[|jobs| - 1];
      if last.name != "" && StopIsDue(last, sessions) then before[last.assistant := last.name] else before
  }

  function SafeToDelete(sessions: Sessions): StaleJob -> bool {
    (job: StaleJob) => job.name != "" && !MayBeInUse(job, sessions)
  }

  function Deferred(sessions: Sessions): StaleJob -> bool {
    (job: StaleJob) => job.name != "" && MayBeInUse(job, sessions)
  }

  method ClassifyStaleRunning(staleRunning: seq<StaleJob>, sessions: Sessions)
    returns (assistantsToStop: map<string, string>, safeDeleteNames: seq<string>, deferredNames: seq<string>)
    ensures safeDeleteNames == Names(Keep(staleRunning, SafeToDelete(sessions)))
    ensures deferredNames == Names(Keep(staleRunning, Deferred(sessions)))
    ensures assistantsToStop == Stops(staleRunning, sessions)
  {
    assistantsToStop, safeDeleteNames, deferredNames := map[], [], [];
    for i := 0 to |staleRunning|
      invariant safeDeleteNames == Names(Keep(staleRunning[..i], SafeToDelete(sessions)))
      invariant deferredNames == Names(Keep(staleRunning[..i], Deferred(sessions)))
      invariant assistantsToStop == Stops(staleRunning[..i], sessions)
    {
      assert staleRunning[..i + 1][..i] == staleRunning[..i];
      var job := staleRunning[i];
      if job.name == "" {
        continue;
      }
      if job.assistant == "" || job.assistant == "unknown" {
        safeDeleteNames := safeDeleteNames + [job.name];
        continue;
      }
      var state := StateOf(sessions, job.assistant);
      if state.missing {
        safeDeleteNames := safeDeleteNames + [job.name];
        continue;
      }
      if state.inspectionFailed {
        deferredNames := deferredNames + [job.name];
        continue;
      }
      if state.boundJob != job.name {
        safeDeleteNames := safeDeleteNames + [job.name];
        continue;
      }
      if state.terminal {
        safeDeleteNames := safeDeleteNames + [job.name];
        continue;
      }
      if state.desiredState == "Stopped" {
        deferredNames := deferredNames + [job.name];
        continue;
      }
      if state.hasActiveCall {
        deferredNames := deferredNames + [job.name];
        continue;
      }
      assistantsToStop := assistantsToStop[job.assistant := job.name];
      deferredNames := deferredNames + [job.name];
    }
    assert staleRunning[..|staleRunning|] == staleRunning;
  }

  lemma NamesOfSum(a: seq<StaleJob>, job: StaleJob)
    ensures Names(a + [job]) == Names(a) + [job.name]
  {
  }

  /** Safe-delete plus deferred is exactly the named stale jobs, each as often as it was listed. */
  lemma {:induction false} EveryNamedJobOnce(jobs: seq<StaleJob>, sessions: Sessions)
    ensures multiset(Names(Keep(jobs, SafeToDelete(sessions)))) + multiset(Names(Keep(jobs, Deferred(sessions))))
            == multiset(Names(Keep(jobs, (job: StaleJob) => job.name != "")))
  {
    var named := (job: StaleJob) => job.name != "";
    if jobs != [] {
      var before, last := jobs[..|jobs| - 1], jobs[|jobs| - 1];
      EveryNamedJobOnce(before, sessions);
      NamesOfSum(Keep(before, SafeToDelete(sessions)), last);
      NamesOfSum(Keep(before, Deferred(sessions)), last);
      NamesOfSum(Keep(before, named), last);
    }
  }

  lemma {:induction false} KeepHolds(jobs: seq<StaleJob>, keep: StaleJob -> bool, name: string)
    ensures name in Names(Keep(jobs, keep)) <==> exists i :: 0 <= i < |jobs| && keep(jobs[i]) && jobs[i].name == name
  {
    if jobs != [] {
      var before, last := jobs[..|jobs| - 1], jobs[|jobs| - 1];
      KeepHolds(before, keep, name);
      NamesOfSum(Keep(before, keep), last);
      if i :| 0 <= i < |before| && keep(before[i]) && before[i].name == name {
        assert jobs[i] == before[i];
      }
      if i :| 0 <= i < |jobs| && keep(jobs[i]) && jobs[i].name == name && i < |before| {
        assert before[i] == jobs[i];
      }
    }
  }

  /** A named job whose assistant nobody read a session of is deleted. */
  lemma UnreadIsDeleted(job: StaleJob, sessions: Sessions)
    requires job.name != "" && job.assistant !in sessions
    ensures SafeToDelete(sessions)(job) && !Deferred(sessions)(job) && !StopIsDue(job, sessions)
  {
  }

  /**
   * Every stop names a stale job whose stop is due, and that job is deferred too; every due stop's assistant
   * is stopped.
   */
  lemma {:induction false} StopsAreDueAndDeferred(jobs: seq<StaleJob>, sessions: Sessions, assistant: string)
    ensures assistant in Stops(jobs, sessions) <==>
              exists i :: 0 <= i < |jobs| && jobs[i].name != "" && jobs[i].assistant == assistant
                  && StopIsDue(jobs[i], sessions)
    ensures assistant in Stops(jobs, sessions) ==>
              && StopIsDue(StaleJob(Stops(jobs, sessions)[assistant], assistant), sessions)
              && Stops(jobs, sessions)[assistant] in Names(Keep(jobs, Deferred(sessions)))
  {
    if jobs != [] {
      var before, last := jobs[..|jobs| - 1], jobs[|jobs| - 1];
      StopsAreDueAndDeferred(before, sessions, assistant);
      NamesOfSum(Keep(before, Deferred(sessions)), last);
      if assistant in Stops(before, sessions) {
        var i :| 0 <= i < |before| && before[i].name != "" && before[i].assistant == assistant
            && StopIsDue(before[i], sessions);
        assert jobs[i] == before[i];
      }
      if assistant in Stops(jobs, sessions) && last.assistant == assistant && last.name != ""
          && StopIsDue(last, sessions) {
        assert jobs[|jobs| - 1] == last;
      }
      assert forall i :: 0 <= i < |before| ==> before[i] == jobs[i];
    }
  }

  /**
   * The job that an inspected session, not over, names as its binding is never deleted; and if the session
   * is stopped then no call is active and no stop was under way.
   */
  lemma BoundJobIsSafe(jobs: seq<StaleJob>, sessions: Sessions, assistant: string)
    requires assistant in sessions && HasOwner(StaleJob("", assistant))
    requires !sessions[assistant].missing && !sessions[assistant].inspectionFailed && !sessions[assistant].terminal
    ensures forall i :: 0 <= i < |jobs| && SafeToDelete(sessions)(jobs[i]) && jobs[i].assistant == assistant ==>
              jobs[i].name != sessions[assistant].boundJob
    ensures assistant in Stops(jobs, sessions) ==>
              && Stops(jobs, sessions)[assistant] == sessions[assistant].boundJob
              && sessions[assistant].desiredState != "Stopped" && !sessions[assistant].hasActiveCall
  {
  }

  /**
   * Whoever the label names does not speak for the job: nobody, a session that is gone, or one read to be over
   * or bound to another job.
   */
  predicate Disowned(sessions: Sessions, assistant: string, name: string) {
    || !HasOwner(StaleJob(name, assistant))
    || StateOf(sessions, assistant).missing
    || (!StateOf(sessions, assistant).inspectionFailed
        && (StateOf(sessions, assistant).terminal || StateOf(sessions, assistant).boundJob != name))
  }

  /**
   * Exactly when the job that an inspected session, not over, is bound to is deleted: if it is listed with a
   * label that disowns it. The label of that very session never does.
   */
  lemma BoundJobIsDeletedIff(jobs: seq<StaleJob>, sessions: Sessions, assistant: string)
    requires assistant in sessions && sessions[assistant].boundJob != ""
    requires !sessions[assistant].missing && !sessions[assistant].inspectionFailed && !sessions[assistant].terminal
    ensures var bound := sessions[assistant].boundJob;
            && (bound in Names(Keep(jobs, SafeToDelete(sessions))) <==>
                exists i :: 0 <= i < |jobs| && jobs[i].name == bound && Disowned(sessions, jobs[i].assistant, bound))
            && (HasOwner(StaleJob(bound, assistant)) ==> !Disowned(sessions, assistant, bound))
  {
    KeepHolds(jobs, SafeToDelete(sessions), sessions[assistant].boundJob);
    assert forall i :: 0 <= i < |jobs| && jobs[i].name == sessions[assistant].boundJob ==>
        (SafeToDelete(sessions)(jobs[i]) <==> Disowned(sessions, jobs[i].assistant, sessions[assistant].boundJob));
  }
}
