/** `_TaskRuntime`: background tasks with one task per key, the key set standing for the unfinished tasks. */
module TaskRuntime {

  datatype Key = Key(taskType: string, assistantId: string, bindingId: string)

  class Runtime {
    var inflight: set<Key>
    /** Every accepted task that has not run its done callback, by key. */
    ghost var unfinished: multiset<Key>

    ghost predicate Valid() reads this {
      unfinished == multiset(inflight)
    }

    constructor ()
      ensures Valid() && unfinished == multiset{}
    {
      inflight := {};
      unfinished := multiset{};
    }

    /** Accepts a task exactly when no unfinished task has its key. */
    method Submit(key: Key) returns (accepted: bool)
      requires Valid()
      modifies this
      ensures Valid()
      ensures accepted <==> key !in old(unfinished)
      ensures unfinished == if accepted then old(unfinished) + multiset{key} else old(unfinished)
      ensures unfinished[key] == 1
    {
      if key in inflight {
        return false;
      }
      inflight := inflight + {key};
      unfinished := unfinished + multiset{key};
      return true;
    }

    /** The done callback, which runs once for an accepted task whether it returned or raised. */
    method Finish(key: Key)
      requires Valid() && key in unfinished
      modifies this
      ensures Valid() && unfinished == old(unfinished) - multiset{key} && key !in unfinished
    {
      inflight := inflight - {key};
      unfinished := unfinished - multiset{key};
    }

    method Stats() returns (count: nat)
      requires Valid()
      ensures count == |unfinished|
    {
      return |inflight|;
    }
  }
}
