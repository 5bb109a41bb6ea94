/**
 * The provisioning worker (RedisWorkerAdapter): for its assigned range of
 * partitions it runs one listener task per batch of at most 50 partitions,
 * each blocking on the request queues "func:request:queue:<p>" of its batch.
 * A received cold-start request is either provisioned locally or, when this
 * node is overloaded and does not own the whole ring, pushed unchanged onto
 * the queue of the partition right after its range.
 */
module Worker {
  import opened Common
  import opened Store
  import opened Uuids
  import opened Partitioning

  const BATCH_SIZE: nat := 50
  const MAX_CONTAINER_LIMIT: int := 50
  const REQUEST_QUEUE_PREFIX: string := "func:request:queue:"

  /** The request queue a listener watches for partition `p`. */
  function QueueKey(p: int): string {
    REQUEST_QUEUE_PREFIX + IntToString(p)
  }

  lemma QueueKeyInjective(p: int, q: int)
    requires QueueKey(p) == QueueKey(q)
    ensures p == q
  {
    assert IntToString(p) == QueueKey(p)[|REQUEST_QUEUE_PREFIX|..];
    assert IntToString(q) == QueueKey(q)[|REQUEST_QUEUE_PREFIX|..];
    IntToStringInjective(p, q);
  }

  /** IntStream.rangeClosed(start, end): start, start + 1, ..., end; empty when end < start. */
  function RangeClosed(start: int, end: int): (r: seq<int>)
    ensures |r| == if end >= start then end - start + 1 else 0
    ensures forall k :: 0 <= k < |r| ==> r[k] == start + k
  {
    seq(if end >= start then end - start + 1 else 0, k => start + k)
  }

  // ---------------------------------------------------------------------
  // Batches
  // ---------------------------------------------------------------------

  /** Consecutive slices of 50 elements, the last one possibly shorter. */
  function Batches(xs: seq<int>): seq<seq<int>>
    decreases |xs|
  {
    if |xs| == 0 then []
    else if |xs| <= BATCH_SIZE then [xs]
    else [xs[..BATCH_SIZE]] + Batches(xs[BATCH_SIZE..])
  }

  /** ceil(|xs| / 50) batches. */
  lemma {:induction false} BatchesCount(xs: seq<int>)
    ensures |Batches(xs)| == (|xs| + BATCH_SIZE - 1) / BATCH_SIZE
    decreases |xs|
  {
    if |xs| > BATCH_SIZE {
      BatchesCount(xs[BATCH_SIZE..]);
    }
  }

  /** Batch j is the slice xs[50j .. min(50j + 50, |xs|)]: the batches tile xs in order. */
  lemma {:induction false} BatchesSlice(xs: seq<int>, j: nat)
    requires j < |Batches(xs)|
    ensures BATCH_SIZE * j < |xs|
    ensures Batches(xs)[j] == xs[BATCH_SIZE * j .. Min(BATCH_SIZE * j + BATCH_SIZE, |xs|)]
    decreases |xs|
  {
    if j == 0 {
      assert Batches(xs)[0] == xs[..Min(BATCH_SIZE, |xs|)];
    } else {
      assert |xs| > BATCH_SIZE;
      var rest := xs[BATCH_SIZE..];
      BatchesSlice(rest, j - 1);
      assert Batches(xs)[j] == Batches(rest)[j - 1];
      var lo := BATCH_SIZE * (j - 1);
      var hi := Min(lo + BATCH_SIZE, |rest|);
      assert BATCH_SIZE * j == lo + BATCH_SIZE;
      assert Min(BATCH_SIZE * j + BATCH_SIZE, |xs|) == hi + BATCH_SIZE;
      DropSlice(xs, BATCH_SIZE, lo, hi);
    }
  }

  /** A slice of a suffix is a shifted slice of the whole. */
  lemma DropSlice(xs: seq<int>, d: nat, lo: nat, hi: nat)
    requires d <= |xs| && lo <= hi <= |xs| - d
    ensures xs[d..][lo..hi] == xs[d + lo .. d + hi]
  {
    assert |xs[d..][lo..hi]| == |xs[d + lo .. d + hi]|;
    forall k | 0 <= k < hi - lo
      ensures xs[d..][lo..hi][k] == xs[d + lo .. d + hi][k]
    {
      assert xs[d..][lo..hi][k] == xs[d..][lo + k] == xs[d + lo + k];
    }
  }

  /** Every batch holds between 1 and 50 partitions. */
  lemma BatchSizes(xs: seq<int>, j: nat)
    requires j < |Batches(xs)|
    ensures 1 <= |Batches(xs)[j]| <= BATCH_SIZE
  {
    BatchesSlice(xs, j);
  }

  /** Appending after a whole number of batches appends batches. */
  lemma {:induction false} BatchesAppend(a: seq<int>, b: seq<int>)
    requires |a| % BATCH_SIZE == 0
    ensures Batches(a + b) == Batches(a) + Batches(b)
    decreases |a|
  {
    if |a| == 0 {
      assert a + b == b;
    } else if b == [] {
      assert a + b == a;
    } else {
      assert (a + b)[..BATCH_SIZE] == a[..BATCH_SIZE];
      assert (a + b)[BATCH_SIZE..] == a[BATCH_SIZE..] + b;
      BatchesAppend(a[BATCH_SIZE..], b);
      if |a| == BATCH_SIZE {
        assert a[..BATCH_SIZE] == a;
      }
    }
  }

  /**
   * Over a range start..end, partition p is watched by some batch exactly
   * when start <= p <= end, and then only by batch (p - start) / 50.
   */
  lemma BatchOfPartition(start: int, end: int, p: int, j: nat)
    requires j < |Batches(RangeClosed(start, end))|
    ensures p in Batches(RangeClosed(start, end))[j] <==>
              start <= p <= end && j == (p - start) / BATCH_SIZE
  {
    var xs := RangeClosed(start, end);
    BatchesSlice(xs, j);
    var b := Batches(xs)[j];
    if p in b {
      var k :| 0 <= k < |b| && b[k] == p;
      assert p == start + BATCH_SIZE * j + k;
    }
    if start <= p <= end && j == (p - start) / BATCH_SIZE {
      assert b[p - start - BATCH_SIZE * j] == p;
    }
  }

  // ---------------------------------------------------------------------
  // Load shedding
  // ---------------------------------------------------------------------

  /** What becomes of one received message. */
  datatype Dispatch =
    | Forward(queue: string)                    // pushed unchanged onto another request queue
    | Provision(functionId: Uuid, s3Key: string) // createAndRunContainer for this command
    | Dropped                                   // an exception was caught and logged

  /** The node owns the whole ring [0, 16383]. */
  predicate IsSolo(start: Option<Int32>, end: Option<Int32>) {
    start == Some(0) && end == Some(TOTAL_PARTITIONS - 1)
  }

  /**
   * processMessageAsync's decision.  Outside solo mode an overloaded node
   * forwards to partition (end + 1) % 16384 in Java int arithmetic; with no
   * current range that unboxing throws, and the message is dropped.
   * Otherwise the message must be a cold-start request whose function id is
   * a UUID.
   */
  function Decide(start: Option<Int32>, end: Option<Int32>, containerCount: int, message: Payload): (d: Dispatch)
    ensures d.Forward? ==> !IsSolo(start, end) && containerCount >= MAX_CONTAINER_LIMIT
    ensures d.Provision? ==> message.ColdStartJson? && d.s3Key == message.s3Key
                             && Parse(message.functionId) == Some(d.functionId)
  {
    if !IsSolo(start, end) && containerCount >= MAX_CONTAINER_LIMIT then
      if end.None? then Dropped
      else Forward(QueueKey(JavaRem(Wrap32(end.value + 1), TOTAL_PARTITIONS)))
    else
      match message
      case ColdStartJson(functionId, s3Key) =>
        (match Parse(functionId)
         case Some(id) => Provision(id, s3Key)
         case None => Dropped)
      case _ => Dropped
  }

  /** In solo mode a message is never forwarded, whatever the load. */
  lemma SoloNeverForwards(containerCount: int, message: Payload)
    ensures !Decide(Some(0), Some(TOTAL_PARTITIONS - 1), containerCount, message).Forward?
  {
  }

  /** Below the limit a well-formed cold-start request is provisioned locally, whatever the range. */
  lemma BelowLimitProvisions(start: Option<Int32>, end: Option<Int32>, containerCount: int, id: Uuid, s3Key: string)
    requires containerCount < MAX_CONTAINER_LIMIT
    ensures Decide(start, end, containerCount, ColdStartJson(ToString(id), s3Key)) == Provision(id, s3Key)
  {
    ParseToString(id);
  }

  /** With two or more nodes in the plan, no node owns the whole ring. */
  lemma PlanNotSolo(n: nat, i: nat)
    requires 2 <= n <= TOTAL_PARTITIONS && i < n
    ensures !(StartOf(n, i) == 0 && EndOf(n, i) == TOTAL_PARTITIONS - 1)
  {
    RangeNonEmpty(n, 0);
    if i == 0 {
      RangesDisjoint(n, 0, 1);
      RangeWithinRing(n, 1);
      RangeNonEmpty(n, 1);
    } else {
      RangesDisjoint(n, 0, i);
    }
  }

  /** The index of node i's successor around the ring of n nodes: (i + 1) % n, written without the modulus. */
  lemma SuccessorIndex(n: nat, i: nat) returns (next: nat)
    requires 0 < n && i < n
    ensures next == (i + 1) % n && next == if i + 1 < n then i + 1 else 0
  {
    next := if i + 1 < n then i + 1 else 0;
  }

  lemma NextStart(n: nat, i: nat, next: nat)
    requires 2 <= n <= TOTAL_PARTITIONS && i < n
    requires next == if i + 1 < n then i + 1 else 0
    ensures 0 < EndOf(n, i) + 1 <= TOTAL_PARTITIONS
    ensures (EndOf(n, i) + 1) % TOTAL_PARTITIONS == StartOf(n, next)
    ensures StartOf(n, next) <= EndOf(n, next)
  {
    RangeWithinRing(n, i);
    RangeNonEmpty(n, i);
    RangeNonEmpty(n, next);
    if i + 1 < n {
      RangeWithinRing(n, i + 1);
    } else {
      PlanCoversAll(n);
    }
  }

  /**
   * With the leader's plan for n >= 2 nodes, an overloaded node i forwards
   * to the first partition of node (i + 1) % n: each node hands work to its
   * successor around the ring, and the last node to the first.
   */
  lemma ForwardGoesToSuccessor(n: nat, i: nat, start: Int32, end: Int32, containerCount: int, message: Payload)
    requires 2 <= n <= TOTAL_PARTITIONS && i < n
    requires start == StartOf(n, i) && end == EndOf(n, i)
    requires containerCount >= MAX_CONTAINER_LIMIT
    ensures Decide(Some(start), Some(end), containerCount, message) == Forward(QueueKey(StartOf(n, (i + 1) % n)))
    ensures StartOf(n, (i + 1) % n) <= EndOf(n, (i + 1) % n)
  {
    PlanNotSolo(n, i);
    var next := SuccessorIndex(n, i);
    NextStart(n, i, next);
    assert Wrap32(end + 1) == end + 1;
    var p := JavaRem(end + 1, TOTAL_PARTITIONS);
    assert p == (end + 1) % TOTAL_PARTITIONS == StartOf(n, next);
    assert !IsSolo(Some(start), Some(end));
  }

  // ---------------------------------------------------------------------
  // The worker
  // ---------------------------------------------------------------------

  class WorkerAdapter {
    var isRunning: bool
    var currentStart: Option<Int32>
    var currentEnd: Option<Int32>
    /** The partitions of each active listener task, in submission order. */
    var listeners: seq<seq<int>>
    /** How many listener tasks were ever submitted to, and cancelled on, the executor. */
    var submitted: nat
    var cancelled: nat

    /**
     * A running worker listens on exactly the batches of its range; a
     * stopped one has no range and no listener; every submitted task is
     * either active or cancelled.
     */
    predicate Valid()
      reads this
    {
      && (isRunning ==>
            currentStart.Some? && currentEnd.Some?
            && listeners == Batches(RangeClosed(currentStart.value, currentEnd.value)))
      && (!isRunning ==> currentStart.None? && currentEnd.None? && listeners == [])
      && submitted == cancelled + |listeners|
    }

    constructor ()
      ensures Valid() && !isRunning && listeners == [] && submitted == 0
    {
      isRunning := false;
      currentStart := None;
      currentEnd := None;
      listeners := [];
      submitted := 0;
      cancelled := 0;
    }

    /** The request queues the listener tasks block on. */
    function WatchedKeys(): set<string>
      reads this
    {
      set j, p | 0 <= j < |listeners| && p in listeners[j] :: QueueKey(p)
    }

    /** stopAllWorkers: cancels every listener task and forgets the range. */
    method StopAllWorkers()
      requires Valid()
      modifies this
      ensures Valid() && !isRunning && currentStart.None? && currentEnd.None? && listeners == []
      ensures cancelled == old(cancelled) + |old(listeners)| && submitted == old(submitted)
    {
      if !isRunning && |listeners| == 0 {
        return;
      }
      isRunning := false;
      var k, count := 0, cancelled;
      while k < |listeners|
        invariant 0 <= k <= |listeners|
        invariant count == cancelled + k
      {
        count := count + 1;  // future.cancel(true)
        k := k + 1;
      }
      cancelled := count;
      listeners := [];
      currentStart := None;
      currentEnd := None;
    }

    /**
     * syncWorkers: nothing happens when already running on the same range;
     * otherwise the old listeners are cancelled and one listener per batch
     * of the new range is submitted.
     */
    method SyncWorkers(start: Int32, end: Int32)
      requires Valid()
      modifies this
      ensures Valid() && isRunning && currentStart == Some(start) && currentEnd == Some(end)
      ensures listeners == Batches(RangeClosed(start, end))
      ensures old(isRunning) && old(currentStart) == Some(start) && old(currentEnd) == Some(end) ==>
                submitted == old(submitted) && cancelled == old(cancelled)
      ensures !(old(isRunning) && old(currentStart) == Some(start) && old(currentEnd) == Some(end)) ==>
                cancelled == old(cancelled) + |old(listeners)|
                && submitted == old(submitted) + |Batches(RangeClosed(start, end))|
    {
      if isRunning && currentStart.Some? && currentEnd.Some? && currentStart.value == start && currentEnd.value == end {
        return;
      }
      StopAllWorkers();
      isRunning := true;
      currentStart := Some(start);
      currentEnd := Some(end);

      var all := RangeClosed(start, end);
      var i := 0;
      while i < |all|
        invariant i % BATCH_SIZE == 0
        invariant listeners == Batches(all[..Min(i, |all|)])
        invariant submitted == cancelled + |listeners|
        invariant isRunning && currentStart == Some(start) && currentEnd == Some(end)
        invariant cancelled == old(cancelled) + |old(listeners)|
        invariant submitted == old(submitted) + |listeners|
        decreases |all| - i
      {
        var to := Min(i + BATCH_SIZE, |all|);
        var batch := all[i..to];
        assert all[..to] == all[..i] + batch;
        BatchesAppend(all[..i], batch);
        listeners := listeners + [batch];
        submitted := submitted + 1;
        i := i + BATCH_SIZE;
      }
      assert all[..Min(i, |all|)] == all;
    }

    /**
     * processMessageAsync for one message, given the container count the
     * orchestration port reports: a forwarded message is appended unchanged
     * to the tail of the target queue and nothing else changes; otherwise
     * the store is left as it was and the decision is returned.
     */
    method ProcessMessage(message: Payload, containerCount: int, store: KvStore) returns (d: Dispatch)
      modifies store
      ensures d == Decide(currentStart, currentEnd, containerCount, message)
      ensures d.Forward? ==> store.lists == old(store.lists)[d.queue := old(store.List(d.queue)) + [message]]
      ensures !d.Forward? ==> store.lists == old(store.lists)
      ensures store.values == old(store.values) && store.zsets == old(store.zsets)
    {
      var solo := currentStart.Some? && currentEnd.Some? && currentStart.value == 0
                  && currentEnd.value == TOTAL_PARTITIONS - 1;
      assert solo == IsSolo(currentStart, currentEnd);
      if !solo && containerCount >= MAX_CONTAINER_LIMIT {
        if currentEnd.None? {
          return Dropped;
        }
        var next := JavaRem(Wrap32(currentEnd.value + 1), TOTAL_PARTITIONS);
        var target := QueueKey(next);
        assert Decide(currentStart, currentEnd, containerCount, message) == Forward(target);
        store.RightPush(target, message);
        return Forward(target);
      }
      if !message.ColdStartJson? {
        return Dropped;
      }
      var id := Parse(message.functionId);
      if id.None? {
        return Dropped;
      }
      d := Provision(id.value, message.s3Key);
      assert Decide(currentStart, currentEnd, containerCount, message) == d;
    }
  }

  /** A running worker watches exactly the queues of the partitions in its range. */
  lemma WatchedKeysOfRange(w: WorkerAdapter, p: int)
    requires w.Valid() && w.isRunning
    ensures QueueKey(p) in w.WatchedKeys() <==> w.currentStart.value <= p <= w.currentEnd.value
  {
    var s, e := w.currentStart.value, w.currentEnd.value;
    var xs := RangeClosed(s, e);
    if QueueKey(p) in w.WatchedKeys() {
      var j, q :| 0 <= j < |w.listeners| && q in w.listeners[j] && QueueKey(q) == QueueKey(p);
      QueueKeyInjective(p, q);
      BatchOfPartition(s, e, p, j);
    }
    if s <= p <= e {
      var j := (p - s) / BATCH_SIZE;
      BatchesCount(xs);
      BatchOfPartition(s, e, p, j);
      assert p in w.listeners[j];
    }
  }
}
