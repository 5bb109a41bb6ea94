/**
 * The invoker's side of the warm pool (ContainerRedisAdapter): idle
 * containers of a function wait in the list "func:idle:<functionId>"; a
 * cold start asks for a new container on one of sixteen request queues
 * "func:request:queue<slot>" chosen by the function id's hash.
 */
module ContainerPool {
  import opened Common
  import opened Store
  import opened Uuids
  import Worker
  import Cleanup

  const REQUEST_QUEUE_PREFIX: string := "func:request:queue"
  const SLOT_COUNT: nat := 16

  /** getSlotIndex: Math.abs(hashCode) % 16 with Java's int semantics. */
  function SlotIndex(functionId: Uuid): (slot: int)
    ensures 0 <= slot < SLOT_COUNT
  {
    var h := JavaAbs(HashCode(functionId));
    assert h == INT_MIN ==> JavaRem(h, SLOT_COUNT) == 0;
    JavaRem(h, SLOT_COUNT)
  }

  /** Math.abs(Integer.MIN_VALUE) stays negative, yet its remainder is slot 0. */
  lemma MinValueSlot()
    ensures JavaRem(JavaAbs(INT_MIN), SLOT_COUNT) == 0
  {
  }

  /** The request queue of a slot. */
  function RequestQueueKey(slot: int): string {
    REQUEST_QUEUE_PREFIX + IntToString(slot)
  }

  /** The request queue of a function. */
  function RequestQueueOf(functionId: Uuid): string {
    RequestQueueKey(SlotIndex(functionId))
  }

  /** Distinct slots have distinct queues. */
  lemma RequestQueueKeyInjective(a: int, b: int)
    requires RequestQueueKey(a) == RequestQueueKey(b)
    ensures a == b
  {
    assert IntToString(a) == RequestQueueKey(a)[|REQUEST_QUEUE_PREFIX|..];
    assert IntToString(b) == RequestQueueKey(b)[|REQUEST_QUEUE_PREFIX|..];
    IntToStringInjective(a, b);
  }

  /**
   * The invoker's request queues are not among the provisioners' partition
   * queues "func:request:queue:<p>": the character after the common prefix
   * is a digit on one side and ':' on the other.
   */
  lemma RequestQueueNotAPartitionQueue(functionId: Uuid, p: int)
    ensures RequestQueueOf(functionId) != Worker.QueueKey(p)
  {
    var k := |REQUEST_QUEUE_PREFIX|;
    var mine := RequestQueueOf(functionId);
    var theirs := Worker.QueueKey(p);
    assert mine[k] == IntToString(SlotIndex(functionId))[0];
    assert IsDigit(mine[k]);
    assert theirs[k] == ':';
  }

  /** Request queues and idle lists never coincide. */
  lemma RequestQueueNotIdleList(functionId: Uuid, other: string)
    ensures RequestQueueOf(functionId) != Cleanup.IdleKey(other)
  {
    assert RequestQueueOf(functionId)[5] == 'r';
    assert Cleanup.IdleKey(other)[5] == 'i';
  }

  /** convertResultToContainerInfo: nothing popped, or an element of another shape, gives nothing. */
  function Convert(popped: Option<Payload>): (r: Option<ContainerInfo>)
    ensures r.Some? <==> popped.Some? && popped.value.ContainerJson?
  {
    match popped
    case Some(ContainerJson(info, _)) => Some(info)
    case _ => None
  }

  /** What a provisioner publishes, or the invoker returns, is what the invoker takes out. */
  lemma ConvertPublished(info: ContainerInfo, form: JsonForm)
    ensures Convert(Some(ContainerJson(info, form))) == Some(info)
  {
  }

  class ContainerRedisAdapter {
    const store: KvStore

    constructor (store: KvStore)
      ensures this.store == store
    {
      this.store := store;
    }

    /** popContainer: takes the head of the idle list, if any. */
    method PopContainer(functionId: Uuid) returns (c: Option<ContainerInfo>)
      modifies store
      ensures var key := Cleanup.IdleKey(ToString(functionId));
              var xs := old(store.List(key));
              && c == (if xs == [] then None else Convert(Some(xs[0])))
              && store.lists == (if xs == [] then old(store.lists) else old(store.lists)[key := xs[1..]])
      ensures store.values == old(store.values) && store.zsets == old(store.zsets)
    {
      var head := store.LeftPop(Cleanup.IdleKey(ToString(functionId)));
      c := Convert(head);
    }

    /** requestContainerCreation: appends one cold-start request to the function's request queue. */
    method RequestContainerCreation(functionId: Uuid, s3Key: string)
      modifies store
      ensures store.lists == old(store.lists)[RequestQueueOf(functionId) :=
                old(store.List(RequestQueueOf(functionId))) + [ColdStartJson(ToString(functionId), s3Key)]]
      ensures store.values == old(store.values) && store.zsets == old(store.zsets)
    {
      store.RightPush(RequestQueueOf(functionId), ColdStartJson(ToString(functionId), s3Key));
    }

    /**
     * waitContainer: the head of the idle list, waiting up to three minutes;
     * `arrivals` are the containers published meanwhile.
     */
    method WaitContainer(functionId: Uuid, arrivals: seq<Payload>) returns (c: Option<ContainerInfo>)
      modifies store
      ensures var key := Cleanup.IdleKey(ToString(functionId));
              var xs := old(store.List(key)) + arrivals;
              && c == (if xs == [] then None else Convert(Some(xs[0])))
              && store.lists == (if xs == [] then old(store.lists) else old(store.lists)[key := xs[1..]])
      ensures store.values == old(store.values) && store.zsets == old(store.zsets)
    {
      var head := store.AwaitLeftPop(Cleanup.IdleKey(ToString(functionId)), arrivals);
      c := Convert(head);
    }

    /**
     * returnContainer: appends the container, in the typed JSON form of the
     * invoker's template, at the tail of the idle list; a store failure is
     * swallowed.
     */
    method ReturnContainer(functionId: Uuid, info: ContainerInfo, storeUp: bool)
      modifies store
      ensures var key := Cleanup.IdleKey(ToString(functionId));
              store.lists == if storeUp then old(store.lists)[key := old(store.List(key)) + [ContainerJson(info, TypedJson)]]
                             else old(store.lists)
      ensures store.values == old(store.values) && store.zsets == old(store.zsets)
    {
      if storeUp {
        store.RightPush(Cleanup.IdleKey(ToString(functionId)), ContainerJson(info, TypedJson));
      }
    }
  }

  /** What successive pops of an idle list yield, one entry per element. */
  function Drain(xs: seq<Payload>): (r: seq<Option<ContainerInfo>>)
    ensures |r| == |xs|
  {
    if xs == [] then [] else [Convert(Some(xs[0]))] + Drain(xs[1..])
  }

  /**
   * The idle list is first-in first-out: a container returned at the tail
   * comes out after everything already queued.
   */
  lemma {:induction false} ReturnedComesOutLast(xs: seq<Payload>, info: ContainerInfo)
    ensures Drain(xs + [ContainerJson(info, TypedJson)]) == Drain(xs) + [Some(info)]
  {
    if xs != [] {
      assert (xs + [ContainerJson(info, TypedJson)])[1..] == xs[1..] + [ContainerJson(info, TypedJson)];
      ReturnedComesOutLast(xs[1..], info);
    }
  }
}
