/**
 * ClusterCoordinationService: each provisioner node sends heartbeats, takes
 * or renews the leader lease, and, as leader, writes one partition range per
 * active node; every node then aligns its worker with its own range.
 * Each scheduled tick is one step at time `now`.
 */
module Coordination {
  import opened Common
  import opened Store
  import opened Uuids
  import opened Partitioning
  import opened ClusterState
  import opened Worker

  /** The i-th range of the plan for n nodes, as stored. */
  function PlanRange(n: nat, i: nat): (r: Range)
    requires 0 < n && i < n
    ensures r.start == StartOf(n, i) && r.end == EndOf(n, i)
  {
    RangeWithinRing(n, i);
    Range(StartOf(n, i), EndOf(n, i))
  }

  /** A planned range passes Range.isValid exactly when it is non-empty. */
  lemma PlanRangeValid(n: nat, i: nat)
    requires 0 < n && i < n
    ensures IsValid(PlanRange(n, i)) <==> n <= TOTAL_PARTITIONS || i < TOTAL_PARTITIONS
  {
    RangeNonEmpty(n, i);
    RangeWithinRing(n, i);
  }

  /** Two nodes split the ring in halves. */
  lemma TwoNodePlan()
    ensures PlanRange(2, 0) == Range(0, 8191) && PlanRange(2, 1) == Range(8192, 16383)
  {
  }

  /** The store after the first i saveAssignmentRange calls of the rebalance loop over `nodes`. */
  function Planned(values: map<string, Entry>, nodes: seq<string>, i: nat): map<string, Entry>
    requires 0 < |nodes| && i <= |nodes|
  {
    if i == 0 then values
    else
      var r := PlanRange(|nodes|, i - 1);
      Planned(values, nodes, i - 1)[AssignKey(nodes[i - 1]) := Entry(RangeJson(r.start, r.end), None)]
  }

  /** rebalancePartitions as a function of the store: nothing is written when no node is active. */
  function Rebalanced(values: map<string, Entry>, now: nat): map<string, Entry> {
    var nodes := SortedNodes(ActiveNodes(values, now));
    if |nodes| == 0 then values else Planned(values, nodes, |nodes|)
  }

  predicate Distinct(nodes: seq<string>) {
    forall a, b :: 0 <= a < b < |nodes| ==> nodes[a] != nodes[b]
  }

  lemma SortedDistinct(nodes: seq<string>)
    requires StrictlySorted(nodes)
    ensures Distinct(nodes)
  {
    forall a, b | 0 <= a < b < |nodes| ensures nodes[a] != nodes[b] {
      StrLessIrreflexive(nodes[a]);
    }
  }

  /**
   * After the first i writes, each of the first i nodes reads back its
   * planned range, every other node reads what it read before, and the set
   * of active nodes is unchanged.
   */
  lemma {:induction false} PlannedReads(values: map<string, Entry>, nodes: seq<string>, i: nat, x: string, now: nat)
    requires 0 < |nodes| && i <= |nodes| && Distinct(nodes)
    ensures forall j :: 0 <= j < i && nodes[j] == x ==>
              AssignmentOf(Planned(values, nodes, i), x, now) == Assigned(PlanRange(|nodes|, j))
    ensures (forall j :: 0 <= j < i ==> nodes[j] != x) ==>
              AssignmentOf(Planned(values, nodes, i), x, now) == AssignmentOf(values, x, now)
    ensures ActiveNodes(Planned(values, nodes, i), now) == ActiveNodes(values, now)
  {
    if i > 0 {
      PlannedReads(values, nodes, i - 1, x, now);
      var r := PlanRange(|nodes|, i - 1);
      var before := Planned(values, nodes, i - 1);
      AssignmentRoundTrip(before, nodes[i - 1], x, r, now);
      AssignmentKeepsActiveNodes(before, nodes[i - 1], Entry(RangeJson(r.start, r.end), None), now);
    }
  }

  /** The leader's lease lies outside the heartbeat key space. */
  lemma LeaseKeepsActiveNodes(values: map<string, Entry>, e: Entry, now: nat)
    ensures ActiveNodes(values[LEADER_KEY := e], now) == ActiveNodes(values, now)
  {
    KeySpacesDisjoint("", "");
    var values' := values[LEADER_KEY := e];
    forall k | k in values' && StartsWith(k, HEARTBEAT_PREFIX)
      ensures k in values && values'[k] == values[k]
    {
      assert k != LEADER_KEY;
    }
  }

  /** Assignments lie outside the leader key. */
  lemma {:induction false} PlannedKeepsLease(values: map<string, Entry>, nodes: seq<string>, i: nat)
    requires 0 < |nodes| && i <= |nodes|
    ensures LEADER_KEY in Planned(values, nodes, i) <==> LEADER_KEY in values
    ensures LEADER_KEY in values ==> Planned(values, nodes, i)[LEADER_KEY] == values[LEADER_KEY]
  {
    if i > 0 {
      PlannedKeepsLease(values, nodes, i - 1);
      KeySpacesDisjoint(nodes[i - 1], "");
    }
  }

  /**
   * After a rebalance every active node reads back its own range of the
   * plan over the sorted identifiers, and nodes that are not active read
   * what they read before.
   */
  lemma RebalancedReads(values: map<string, Entry>, now: nat, x: string)
    ensures var nodes := SortedNodes(ActiveNodes(values, now));
            forall j :: 0 <= j < |nodes| && nodes[j] == x ==>
              AssignmentOf(Rebalanced(values, now), x, now) == Assigned(PlanRange(|nodes|, j))
    ensures x !in ActiveNodes(values, now) ==>
              AssignmentOf(Rebalanced(values, now), x, now) == AssignmentOf(values, x, now)
  {
    var nodes := SortedNodes(ActiveNodes(values, now));
    if |nodes| > 0 {
      SortedDistinct(nodes);
      PlannedReads(values, nodes, |nodes|, x, now);
    }
  }

  /** Node x's stored range contains partition p. */
  predicate HoldsPartition(values: map<string, Entry>, x: string, p: int, now: nat) {
    match AssignmentOf(values, x, now)
    case Assigned(r) => r.start <= p <= r.end
    case _ => false
  }

  /** After a rebalance an active node holds the range at its position in the sorted order. */
  lemma AssignedIsPlanned(values: map<string, Entry>, now: nat, x: string) returns (a: nat)
    requires x in ActiveNodes(values, now)
    ensures var nodes := SortedNodes(ActiveNodes(values, now));
            a < |nodes| && nodes[a] == x
            && AssignmentOf(Rebalanced(values, now), x, now) == Assigned(PlanRange(|nodes|, a))
  {
    var nodes := SortedNodes(ActiveNodes(values, now));
    assert x in nodes;
    a :| 0 <= a < |nodes| && nodes[a] == x;
    RebalancedReads(values, now, x);
  }

  /**
   * After a rebalance with at least one active node, every partition lies in
   * the assigned range of exactly one active node.
   */
  lemma RebalanceCoversRingOnce(values: map<string, Entry>, now: nat, p: nat)
    requires ActiveNodes(values, now) != {} && p < TOTAL_PARTITIONS
    ensures exists x :: x in ActiveNodes(values, now) && HoldsPartition(Rebalanced(values, now), x, p, now)
    ensures forall x, y ::
              x in ActiveNodes(values, now) && y in ActiveNodes(values, now)
              && HoldsPartition(Rebalanced(values, now), x, p, now)
              && HoldsPartition(Rebalanced(values, now), y, p, now)
              ==> x == y
  {
    var after := Rebalanced(values, now);
    var active := ActiveNodes(values, now);
    var nodes := SortedNodes(active);
    var n := |nodes|;
    UniqueOwner(n, p);
    var i :| 0 <= i < n && StartOf(n, i) <= p <= EndOf(n, i);
    assert nodes[i] in active;
    var a := AssignedIsPlanned(values, now, nodes[i]);
    SortedDistinct(nodes);
    assert HoldsPartition(after, nodes[i], p, now);
    forall x, y | x in active && y in active && HoldsPartition(after, x, p, now) && HoldsPartition(after, y, p, now)
      ensures x == y
    {
      SoleHolder(values, now, p, x, y);
    }
  }

  /** Two active nodes holding the same partition after a rebalance are the same node. */
  lemma SoleHolder(values: map<string, Entry>, now: nat, p: nat, x: string, y: string)
    requires p < TOTAL_PARTITIONS
    requires x in ActiveNodes(values, now) && y in ActiveNodes(values, now)
    ensures HoldsPartition(Rebalanced(values, now), x, p, now) && HoldsPartition(Rebalanced(values, now), y, p, now)
            ==> x == y
  {
    var n := |SortedNodes(ActiveNodes(values, now))|;
    var ax := AssignedIsPlanned(values, now, x);
    var ay := AssignedIsPlanned(values, now, y);
    UniqueOwner(n, p);
  }

  /** A node identifier (a UUID string) never contains ':'. */
  lemma NodeIdColonFree(id: Uuid)
    ensures ColonFree(ToString(id))
  {
    ToStringAvoids(id, ':');
  }

  class CoordinationService {
    /** UUID.randomUUID().toString(), fixed when the node starts. */
    const myNodeId: string
    const state: ClusterStateAdapter
    const workers: WorkerAdapter

    constructor (id: Uuid, state: ClusterStateAdapter, workers: WorkerAdapter)
      ensures myNodeId == ToString(id) && this.state == state && this.workers == workers
    {
      myNodeId := ToString(id);
      this.state := state;
      this.workers := workers;
    }

    /** heartbeat: keeps this node listed as active for the next 5 seconds. */
    method Heartbeat(now: nat)
      modifies state.store
      ensures state.store.values == old(state.store.values)[HeartbeatKey(myNodeId) := Entry(Text("alive"), Some(now + HEARTBEAT_TTL_MS))]
      ensures state.store.lists == old(state.store.lists) && state.store.zsets == old(state.store.zsets)
    {
      state.SendHeartbeat(myNodeId, now);
    }

    /**
     * rebalancePartitions: the active identifiers in increasing order; node
     * i gets 16384 / n partitions, one more when i < 16384 % n, each range
     * starting right after the previous one.
     */
    method RebalancePartitions(now: nat)
      modifies state.store
      ensures state.store.values == Rebalanced(old(state.store.values), now)
      ensures state.store.lists == old(state.store.lists) && state.store.zsets == old(state.store.zsets)
    {
      var nodes := SortedNodes(state.GetActiveNodes(now));
      var nodeCount := |nodes|;
      if nodeCount == 0 {
        return;
      }
      var chunkSize := TOTAL_PARTITIONS / nodeCount;
      var remainder := TOTAL_PARTITIONS % nodeCount;
      var start := 0;
      var i := 0;
      while i < nodeCount
        invariant 0 <= i <= nodeCount
        invariant start == StartOf(nodeCount, i)
        invariant state.store.values == Planned(old(state.store.values), nodes, i)
        invariant state.store.lists == old(state.store.lists) && state.store.zsets == old(state.store.zsets)
      {
        var mySize := chunkSize + (if i < remainder then 1 else 0);
        var end := start + mySize - 1;
        RangeWithinRing(nodeCount, i);
        state.SaveAssignmentRange(nodes[i], start, end);
        start := end + 1;
        i := i + 1;
      }
    }

    /**
     * leaderTask: a node that does not hold the lease tries to take it; the
     * holder renews it; whoever holds it at the end of the tick rebalances.
     */
    method LeaderTask(now: nat) returns (rebalanced: bool)
      modifies state.store
      ensures rebalanced <==> old(state.IsLeader(myNodeId, now)) || old(LeaderOf(state.store.values, now)).None?
      ensures rebalanced <==> state.IsLeader(myNodeId, now)
      ensures rebalanced ==>
        state.store.values == Rebalanced(old(state.store.values)[LEADER_KEY := Entry(Text(myNodeId), Some(now + LEADER_TTL_MS))], now)
      ensures !rebalanced ==> state.store.values == old(state.store.values)
      ensures state.store.lists == old(state.store.lists) && state.store.zsets == old(state.store.zsets)
    {
      var isLeader := state.IsLeader(myNodeId, now);
      if !isLeader {
        var acquired := state.TryAcquireLeadership(myNodeId, now);
        if acquired {
          isLeader := true;
        }
      } else {
        state.ExtendLeadership(myNodeId, now);
      }
      if isLeader {
        ghost var leased := state.store.values;
        RebalancePartitions(now);
        RebalanceKeepsLease(leased, now);
      }
      rebalanced := isLeader;
    }

    /**
     * syncWorkers: a valid assigned range is handed to the worker; no range
     * or an invalid one stops it; a stored value that is not a range raises
     * before the worker is touched.
     */
    method SyncWorkers(now: nat)
      requires workers.Valid()
      modifies workers
      ensures workers.Valid()
      ensures match AssignmentOf(state.store.values, myNodeId, now)
              case Assigned(r) =>
                if IsValid(r) then
                  workers.isRunning && workers.currentStart == Some(r.start) && workers.currentEnd == Some(r.end)
                  && workers.listeners == Batches(RangeClosed(r.start, r.end))
                else !workers.isRunning && workers.listeners == []
              case Unassigned => !workers.isRunning && workers.listeners == []
              case NotARange => unchanged(workers)
    {
      var range := state.GetAssignmentRange(myNodeId, now);
      match range
      case NotARange =>
      case Assigned(r) =>
        if IsValid(r) {
          workers.SyncWorkers(r.start, r.end);
        } else {
          workers.StopAllWorkers();
        }
      case Unassigned =>
        workers.StopAllWorkers();
    }
  }

  /** A rebalance leaves a freshly written lease in place. */
  lemma RebalanceKeepsLease(values: map<string, Entry>, now: nat)
    ensures LEADER_KEY in values ==> LEADER_KEY in Rebalanced(values, now)
                                     && Rebalanced(values, now)[LEADER_KEY] == values[LEADER_KEY]
  {
    var nodes := SortedNodes(ActiveNodes(values, now));
    if |nodes| > 0 {
      PlannedKeepsLease(values, nodes, |nodes|);
    }
  }
}
