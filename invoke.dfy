/**
 * InvokeService: the invoker's handling of one invocation.  The caller's
 * access key is checked first; a container is then taken from the
 * function's idle list (warm start) or, when none is there, requested from
 * the provisioners and awaited (cold start); the agent runs the function in
 * it; the execution is logged; and the container goes back to the idle list
 * only when the function succeeded.  The registry's verdict, the agent's
 * response and the log store's availability are inputs of the model.
 */
module Invocation {
  import opened Common
  import opened Store
  import opened Uuids
  import opened Errors
  import opened ContainerPool
  import Cleanup

  /** The registry's answer for (functionId, accessKey). */
  datatype AuthResult = AuthResult(isValid: bool, s3Key: string)

  datatype ExecutionType = Warm | Cold

  /** What the agent reports after running the function. */
  datatype AgentResponse = AgentResponse(result: string, success: bool, memoryUsage: int, errorMessage: string)

  /** One execution log record (timestamps and the agent's own timings are not modelled). */
  datatype ExecutionLog = ExecutionLog(
    id: Uuid, functionId: Uuid, success: bool, memoryUsage: int,
    executionType: ExecutionType, coldStartDurationMs: int)

  /** The failures an invocation reports. */
  datatype InvokeError =
    | PermissionDenied(code: ErrorCode)      // PermissionDeniedException
    | Business(code: ErrorCode)              // BusinessException
    | ExecutionFailed(message: string)       // RuntimeException

  /** What one pop of an idle list yields. */
  function Head(xs: seq<Payload>): (c: Option<ContainerInfo>)
    ensures c.Some? ==> xs != [] && xs[0].ContainerJson? && xs[0].info == c.value
    ensures xs != [] && xs[0].ContainerJson? ==> c == Some(xs[0].info)
  {
    if xs == [] then None else Convert(Some(xs[0]))
  }

  /** The idle list after one pop. */
  function Rest(xs: seq<Payload>): (r: seq<Payload>)
    ensures xs == [] ==> r == []
    ensures xs != [] ==> xs == [xs[0]] + r
  {
    if xs == [] then [] else xs[1..]
  }

  /** How an invocation obtains its container, and the idle list it leaves behind. */
  datatype Acquisition = Acquisition(container: Option<ContainerInfo>, kind: ExecutionType, idleAfter: seq<Payload>)

  /**
   * Warm when popping the idle list gives a container; otherwise cold: the
   * pop consumed whatever head there was, and the wait pops the next entry
   * of what remains followed by the containers published meanwhile.
   */
  function Acquire(idle: seq<Payload>, arrivals: seq<Payload>): Acquisition {
    if Head(idle).Some? then Acquisition(Head(idle), Warm, idle[1..])
    else
      var waited := Rest(idle) + arrivals;
      Acquisition(Head(waited), Cold, Rest(waited))
  }

  /**
   * The acquired container was in the idle list or was published during the
   * wait; a warm start ignores what is published later; what is left is the
   * list minus its first one or two entries.
   */
  lemma AcquireTakesFromPool(idle: seq<Payload>, arrivals: seq<Payload>)
    ensures var a := Acquire(idle, arrivals);
            && (a.container.Some? ==> exists i :: 0 <= i < |idle + arrivals| && (idle + arrivals)[i].ContainerJson?
                                                   && (idle + arrivals)[i].info == a.container.value)
            && (a.kind == Warm <==> |idle| > 0 && idle[0].ContainerJson?)
            && (a.kind == Warm ==> a.container == Some(idle[0].info) && a.idleAfter == idle[1..])
            && (a.kind == Cold ==>
                  var all := idle + arrivals;
                  |all| - 2 <= |a.idleAfter| <= |all| && a.idleAfter == all[|all| - |a.idleAfter|..])
  {
    var a := Acquire(idle, arrivals);
    var all := idle + arrivals;
    if a.kind == Cold {
      var waited := Rest(idle) + arrivals;
      if idle != [] {
        assert waited == all[1..];
        if waited != [] {
          assert a.idleAfter == all[2..];
        }
      } else {
        assert waited == all;
        if waited != [] {
          assert a.idleAfter == all[1..];
        }
      }
      if a.container.Some? {
        var i := |all| - |waited|;
        assert waited[0] == all[i];
        assert all[i].ContainerJson? && all[i].info == a.container.value;
      }
    } else {
      assert all[0] == idle[0];
    }
  }

  /**
   * A warm invocation that succeeds rotates the pool: the used container
   * moves to the tail, now in the invoker's typed form; when it was already
   * in that form the pool keeps the same entries.
   */
  lemma WarmSuccessRotatesPool(idle: seq<Payload>, arrivals: seq<Payload>)
    requires Acquire(idle, arrivals).kind == Warm
    ensures var a := Acquire(idle, arrivals);
            && a.idleAfter + [ContainerJson(a.container.value, TypedJson)] == idle[1..] + [ContainerJson(idle[0].info, TypedJson)]
            && (idle[0].form == TypedJson ==> multiset(a.idleAfter + [ContainerJson(a.container.value, TypedJson)]) == multiset(idle))
  {
    assert idle == [idle[0]] + idle[1..];
  }

  /**
   * The cold-start cycle: with an empty idle list, the container a
   * provisioner publishes during the wait is the one used, and once it is
   * returned the next invocation finds it warm.
   */
  lemma PublishedContainerServesNextInvocation(info: ContainerInfo, later: seq<Payload>)
    ensures var first := Acquire([], [ContainerJson(info, PlainJson)]);
            && first == Acquisition(Some(info), Cold, [])
            && Acquire(first.idleAfter + [ContainerJson(info, TypedJson)], later) == Acquisition(Some(info), Warm, [])
  {
    assert ([] + [ContainerJson(info, PlainJson)])[1..] == [];
  }

  /** InvokeService with its collaborators: the container pool and the execution log store. */
  class InvokeService {
    const pool: ContainerRedisAdapter
    var logs: seq<ExecutionLog>

    constructor (pool: ContainerRedisAdapter)
      ensures this.pool == pool && logs == []
    {
      this.pool := pool;
      this.logs := [];
    }

    /**
     * invoke.  `arrivals` are the containers published on the idle list
     * while a cold start waits, `agent` the agent's response, `saveOk`
     * whether the log store accepted the record, `returnOk` whether the
     * store accepted the returned container, `coldStartMs` the measured
     * cold-start time.  `calledOn` is the container the agent was asked to
     * run the function in.
     */
    method Invoke(functionId: Uuid, requestId: Uuid, auth: AuthResult, arrivals: seq<Payload>,
                  agent: AgentResponse, coldStartMs: nat, saveOk: bool, returnOk: bool)
      returns (r: Result<string, InvokeError>, calledOn: Option<ContainerInfo>)
      modifies pool.store, this
      ensures var idle := Cleanup.IdleKey(ToString(functionId));
              var queue := RequestQueueOf(functionId);
              pool.store.lists - {idle, queue} == old(pool.store.lists) - {idle, queue}
      ensures pool.store.values == old(pool.store.values) && pool.store.zsets == old(pool.store.zsets)
      // no access: nothing touched
      ensures !auth.isValid ==>
                && r == Err(PermissionDenied(InvokePermissionDenied)) && calledOn.None?
                && pool.store.lists == old(pool.store.lists) && logs == old(logs)
      // at most one creation request, and only on a cold start
      ensures auth.isValid ==>
                var queue := RequestQueueOf(functionId);
                var a := Acquire(old(pool.store.List(Cleanup.IdleKey(ToString(functionId)))), arrivals);
                pool.store.List(queue) == old(pool.store.List(queue))
                  + (if a.kind == Cold then [ColdStartJson(ToString(functionId), auth.s3Key)] else [])
      // no container in time
      ensures auth.isValid ==>
                var idle := Cleanup.IdleKey(ToString(functionId));
                var a := Acquire(old(pool.store.List(idle)), arrivals);
                a.container.None? ==>
                  && r == Err(Business(ContainerInitTimeout)) && calledOn.None?
                  && pool.store.List(idle) == a.idleAfter && logs == old(logs)
      // a container: run, log, and return it only on success
      ensures auth.isValid ==>
                var idle := Cleanup.IdleKey(ToString(functionId));
                var a := Acquire(old(pool.store.List(idle)), arrivals);
                a.container.Some? ==>
                  && calledOn == a.container
                  && (r.Ok? <==> agent.success)
                  && (r.Ok? ==> r.value == agent.result)
                  && (r.Err? ==> r.error == ExecutionFailed("Function execution failed: " + agent.errorMessage))
                  && pool.store.List(idle) == a.idleAfter
                       + (if agent.success && returnOk then [ContainerJson(a.container.value, TypedJson)] else [])
                  && logs == old(logs)
                       + (if saveOk then [ExecutionLog(requestId, functionId, agent.success, agent.memoryUsage,
                                                       a.kind, if a.kind == Warm then 0 else coldStartMs)]
                          else [])
    {
      if !auth.isValid {
        return Err(PermissionDenied(InvokePermissionDenied)), None;
      }
      var acquired, kind := AcquireContainer(functionId, auth.s3Key, arrivals);
      if acquired.None? {
        return Err(Business(ContainerInitTimeout)), None;
      }
      var info := acquired.value;
      calledOn := Some(info);
      var coldStartDuration := if kind == Warm then 0 else coldStartMs;
      var record := ExecutionLog(requestId, functionId, agent.success, agent.memoryUsage, kind, coldStartDuration);
      if saveOk {
        logs := logs + [record];
      }
      if agent.success {
        ReturnAfterSuccess(functionId, info, returnOk);
        r := Ok(agent.result);
      } else {
        r := Err(ExecutionFailed("Function execution failed: " + agent.errorMessage));
      }
    }

    /** The return to the pool after a successful run, seen from the two keys invoke touches. */
    method ReturnAfterSuccess(functionId: Uuid, info: ContainerInfo, returnOk: bool)
      modifies pool.store
      ensures var idle := Cleanup.IdleKey(ToString(functionId));
              var queue := RequestQueueOf(functionId);
              && pool.store.lists - {idle, queue} == old(pool.store.lists) - {idle, queue}
              && pool.store.List(queue) == old(pool.store.List(queue))
              && pool.store.List(idle) == old(pool.store.List(idle)) + (if returnOk then [ContainerJson(info, TypedJson)] else [])
      ensures pool.store.values == old(pool.store.values) && pool.store.zsets == old(pool.store.zsets)
    {
      RequestQueueNotIdleList(functionId, ToString(functionId));
      pool.ReturnContainer(functionId, info, returnOk);
    }

    /**
     * The warm/cold acquisition of invoke: pop the idle list; on a miss,
     * request one container and wait for it.
     */
    method AcquireContainer(functionId: Uuid, s3Key: string, arrivals: seq<Payload>)
      returns (c: Option<ContainerInfo>, kind: ExecutionType)
      modifies pool.store
      ensures var idle := Cleanup.IdleKey(ToString(functionId));
              var queue := RequestQueueOf(functionId);
              var a := Acquire(old(pool.store.List(idle)), arrivals);
              && c == a.container && kind == a.kind
              && pool.store.lists - {idle, queue} == old(pool.store.lists) - {idle, queue}
              && pool.store.List(idle) == a.idleAfter
              && pool.store.List(queue) == old(pool.store.List(queue))
                   + (if kind == Cold then [ColdStartJson(ToString(functionId), s3Key)] else [])
      ensures pool.store.values == old(pool.store.values) && pool.store.zsets == old(pool.store.zsets)
    {
      var idle := Cleanup.IdleKey(ToString(functionId));
      var queue := RequestQueueOf(functionId);
      RequestQueueNotIdleList(functionId, ToString(functionId));
      ghost var xs := pool.store.List(idle);
      ghost var lists0 := pool.store.lists;
      c := pool.PopContainer(functionId);
      assert pool.store.List(idle) == Rest(xs);
      if xs != [] {
        UpdateOutside(lists0, idle, xs[1..], {idle, queue});
      }
      if c.Some? {
        kind := Warm;
      } else {
        kind := Cold;
        ghost var lists1 := pool.store.lists;
        pool.RequestContainerCreation(functionId, s3Key);
        UpdateOutside(lists1, queue, pool.store.List(queue), {idle, queue});
        assert pool.store.List(idle) == Rest(xs);
        ghost var lists2 := pool.store.lists;
        ghost var waited := Rest(xs) + arrivals;
        c := pool.WaitContainer(functionId, arrivals);
        if waited != [] {
          UpdateOutside(lists2, idle, waited[1..], {idle, queue});
        }
      }
    }
  }
}
