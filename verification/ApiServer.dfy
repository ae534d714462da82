/**
 * The Kubernetes API server as one client sees it: one AssistantSession object under optimistic
 * concurrency, written by this client and, between any two of its calls, by anybody else.
 */
module ApiServer {
  import opened Prelude
  import opened Sessions
  import Json

  datatype Reply<+T> =
    | Ok(value: T)
    | Conflict  // HTTP 409: the resource version, or the existence, is not what the caller assumed
    | Failed    // any other error, including a reply lost after the write landed

  /** Every write gives the object a resource version above all earlier ones. */
  ghost predicate VersionsGrow(states: seq<Option<Session>>, revision: nat) {
    && (forall i, j :: 0 <= i < j < |states| && states[i].Some? && states[j].Some? ==>
          states[i].value.resourceVersion < states[j].value.resourceVersion)
    && (forall i :: 0 <= i < |states| && states[i].Some? ==> states[i].value.resourceVersion <= revision)
  }

  /** The attempt id on the binding of a status, or the empty text. */
  function AttemptIn(status: Status): string {
    if status.binding.vmAssignment.Some? then status.binding.vmAssignment.value.attemptId else ""
  }

  function AttemptOn(state: Option<Session>): string {
    AttemptIn(OrEmpty(state).status)
  }

  class Server {
    var stored: Option<Session>
    var revision: nat
    var clock: Time
    /** Random attempt ids this client drew and has not written: nobody else can know them. */
    var reserved: set<string>
    /** Every state the object has been in, oldest first. */
    ghost var states: seq<Option<Session>>
    /** `i in own`: this client's write took the object from `states[i]` to `states[i + 1]`. */
    ghost var own: set<nat>
    /** How many requests of this client failed, landed or not. */
    ghost var failures: nat
    /** How many writes this client has asked for. */
    ghost var requests: nat

    ghost predicate Valid()
      reads this`stored, this`revision, this`reserved, this`states, this`own
    {
      && |states| > 0
      && states[|states| - 1] == stored
      && VersionsGrow(states, revision)
      && (forall i :: i in own ==> i + 1 < |states|)
      && (forall i :: 0 <= i < |states| ==> AttemptOn(states[i]) !in reserved)
      && "" !in reserved
    }

    constructor (stored: Option<Session>, clock: Time, reserved: set<string>)
      requires AttemptOn(stored) !in reserved && "" !in reserved
      ensures Valid() && own == {} && states == [stored] && this.clock == clock && this.reserved == reserved
      ensures failures == 0 && requests == 0
    {
      this.stored := stored;
      this.revision := if stored.Some? then stored.value.resourceVersion else 0;
      this.clock := clock;
      this.reserved := reserved;
      this.states := [stored];
      this.own := {};
      this.failures := 0;
      this.requests := 0;
    }

    /** What other writers and time may do between two steps of this client. */
    twostate predicate Interfered()
      reads this`stored, this`revision, this`reserved, this`states, this`own, this`clock
    {
      && Valid()
      && old(states) <= states
      && own == old(own)
      && old(clock) <= clock
      && reserved == old(reserved)
    }

    /** This client's one write on top of any interference: the step out of `states[|states| - 2]`. */
    twostate predicate Committed(readVersion: nat, next: Status)
      reads this`stored, this`revision, this`reserved, this`states, this`own, this`clock
    {
      && Valid()
      && old(clock) <= clock
      && |states| > |old(states)|
      && old(states) <= states[..|states| - 1]
      && own == old(own) + {|states| - 2}
      && states[|states| - 2].Some?
      && states[|states| - 2].value.resourceVersion == readVersion
      && stored == Some(states[|states| - 2].value.(status := next, resourceVersion := revision))
      && reserved == old(reserved) - {AttemptIn(next)}
    }

    /** One write, creation or removal by somebody who does not know this client's reserved ids. */
    method WriteByOther(next: Option<Session>)
      requires Valid() && AttemptOn(next) !in reserved
      modifies this
      ensures Valid() && states == old(states) + [stored]
      ensures own == old(own) && reserved == old(reserved) && clock == old(clock)
      ensures failures == old(failures) && requests == old(requests)
    {
      revision := revision + 1;
      stored := if next.Some? then Some(next.value.(resourceVersion := revision)) else None;
      states := states + [stored];
    }

    method Interfere()
      requires Valid()
      modifies this
      ensures Interfered() && failures == old(failures) && requests == old(requests)
    {
      var writes: int := *;
      for i := 0 to if writes < 0 then 0 else writes
        invariant Valid() && old(states) <= states && own == old(own)
        invariant reserved == old(reserved) && clock == old(clock)
        invariant failures == old(failures) && requests == old(requests)
      {
        var next: Option<Session> := *;
        if AttemptOn(next) !in reserved {
          WriteByOther(next);
        }
      }
      var elapsed: Time := *;
      if elapsed >= 0.0 {
        clock := clock + elapsed;
      }
    }

    /** `get_assistant_session`, with 404 as None. */
    method Get() returns (current: Option<Session>)
      requires Valid()
      modifies this
      ensures Interfered() && current == stored
      ensures failures == old(failures) && requests == old(requests)
    {
      Interfere();
      current := stored;
    }

    /** This client's status write on the version now stored. */
    method Commit(next: Status)
      requires Valid() && stored.Some?
      modifies this
      ensures Valid() && states == old(states) + [stored] && clock == old(clock)
      ensures failures == old(failures) && requests == old(requests)
      ensures own == old(own) + {|old(states)| - 1} && reserved == old(reserved) - {AttemptIn(next)}
      ensures stored == Some(old(stored).value.(status := next, resourceVersion := revision))
    {
      revision := revision + 1;
      own := own + {|states| - 1};
      stored := Some(stored.value.(status := next, resourceVersion := revision));
      reserved := reserved - {AttemptIn(next)};
      states := states + [stored];
    }

    /** `replace_namespaced_custom_object_status`: only the status of the body is taken over. */
    method ReplaceStatus(next: Status, readVersion: Option<nat>) returns (reply: Reply<Session>)
      requires Valid()
      modifies this
      ensures reply.Ok? ==> readVersion.Some? && Committed(readVersion.value, next) && stored == Some(reply.value)
      ensures reply.Conflict? ==> Interfered() && readVersion.Some? && stored.Some?
      ensures reply.Conflict? ==> stored.value.resourceVersion != readVersion.value
      ensures reply.Failed? ==> Interfered() || (readVersion.Some? && Committed(readVersion.value, next))
      ensures requests == old(requests) + 1 && failures == old(failures) + if reply.Failed? then 1 else 0
    {
      requests := requests + 1;
      Interfere();
      if readVersion.None? || stored.None? {
        failures := failures + 1;
        return Failed;
      }
      if stored.value.resourceVersion != readVersion.value {
        return Conflict;
      }
      var lost: bool := *;
      var landed: bool := *;
      if lost && !landed {
        failures := failures + 1;
        return Failed;
      }
      ghost var before := states;
      Commit(next);
      assert states[..|states| - 1] == before;
      if lost {
        failures := failures + 1;
      }
      return if lost then Failed else Ok(stored.value);
    }

    /** This client's one write of a whole new version on top of any interference. */
    twostate predicate Wrote(before: Option<Session>, after: Session)
      reads this`stored, this`revision, this`reserved, this`states, this`own, this`clock
    {
      && Valid()
      && old(clock) <= clock && reserved == old(reserved)
      && |states| > |old(states)|
      && old(states) <= states[..|states| - 1]
      && own == old(own) + {|states| - 2}
      && states[|states| - 2] == before
      && stored == Some(after)
    }

    method Store(after: Session) returns (result: Session)
      requires Valid() && AttemptOn(Some(after)) !in reserved
      modifies this
      ensures Valid() && states == old(states) + [stored] && own == old(own) + {|old(states)| - 1}
      ensures clock == old(clock) && reserved == old(reserved)
      ensures failures == old(failures) && requests == old(requests)
      ensures result == after.(resourceVersion := revision) && stored == Some(result)
    {
      revision := revision + 1;
      own := own + {|states| - 1};
      result := after.(resourceVersion := revision);
      stored := Some(result);
      states := states + [stored];
    }

    /** `create_namespaced_custom_object`: refused where the object exists. */
    method Create(spec: map<string, Json.Value>) returns (reply: Reply<Session>)
      requires Valid()
      modifies this
      ensures reply.Ok? ==> Wrote(None, reply.value) && reply.value == Session(revision, false, spec, EMPTY_STATUS)
      ensures reply.Conflict? ==> Interfered() && stored.Some?
      ensures reply.Failed? ==> Interfered() || Wrote(None, Session(revision, false, spec, EMPTY_STATUS))
      ensures requests == old(requests) + 1 && failures == old(failures) + if reply.Failed? then 1 else 0
    {
      requests := requests + 1;
      Interfere();
      if stored.Some? {
        return Conflict;
      }
      var lost: bool, landed: bool := *, *;
      if lost {
        failures := failures + 1;
      }
      if lost && !landed {
        return Failed;
      }
      assert AttemptOn(Some(Session(0, false, spec, EMPTY_STATUS))) == "";
      ghost var before := states;
      var result := Store(Session(0, false, spec, EMPTY_STATUS));
      assert states[..|states| - 1] == before;
      return if lost then Failed else Ok(result);
    }

    /** What a spec patch makes of a version: merged field by field, everything else as it is. */
    function Patched(before: Session, spec: map<string, Json.Value>, version: nat): Session {
      before.(spec := Json.MergeFields(before.spec, spec), resourceVersion := version)
    }

    /** `patch_namespaced_custom_object` with a spec and the version it was computed from. */
    method PatchSpec(spec: map<string, Json.Value>, readVersion: nat) returns (reply: Reply<Session>)
      requires Valid()
      modifies this
      ensures reply.Ok? ==> PatchLanded(spec, readVersion) && stored == Some(reply.value)
      ensures reply.Conflict? ==> Interfered() && stored.Some? && stored.value.resourceVersion != readVersion
      ensures reply.Failed? ==> Interfered() || PatchLanded(spec, readVersion)
      ensures requests == old(requests) + 1 && failures == old(failures) + if reply.Failed? then 1 else 0
    {
      requests := requests + 1;
      Interfere();
      if stored.None? {
        failures := failures + 1;
        return Failed;
      }
      if stored.value.resourceVersion != readVersion {
        return Conflict;
      }
      var lost: bool, landed: bool := *, *;
      if lost {
        failures := failures + 1;
      }
      if lost && !landed {
        return Failed;
      }
      ghost var before := states;
      assert AttemptOn(before[|before| - 1]) !in reserved;
      var result := Store(Patched(stored.value, spec, 0));
      assert states[..|states| - 1] == before;
      return if lost then Failed else Ok(result);
    }

    twostate predicate PatchLanded(spec: map<string, Json.Value>, readVersion: nat)
      reads this`stored, this`revision, this`reserved, this`states, this`own, this`clock
    {
      && |states| >= 2 && states[|states| - 2].Some? && states[|states| - 2].value.resourceVersion == readVersion
      && Wrote(states[|states| - 2], Patched(states[|states| - 2].value, spec, revision))
    }
  }
}
