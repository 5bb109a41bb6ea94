/**
 * The provisioner cluster's shared state in Redis: node heartbeats with a
 * 5-second time-to-live, a leader lease with a 10-second time-to-live, and
 * one partition range per node.
 */
module ClusterState {
  import opened Common
  import opened Store

  const HEARTBEAT_PREFIX: string := "prov:node:"
  const LEADER_KEY: string := "prov:leader"
  const ASSIGN_KEY_PREFIX: string := "prov:assign:"
  const HEARTBEAT_TTL_MS: nat := 5000
  const LEADER_TTL_MS: nat := 10000

  /** A node's partition range, both ends included. */
  datatype Range = Range(start: Int32, end: Int32)

  predicate IsValid(r: Range) {
    r.start >= 0 && r.end >= r.start
  }

  /** What reading a node's assignment yields: nothing, a range, or a value that is not a range. */
  datatype Assignment = Unassigned | Assigned(range: Range) | NotARange

  function HeartbeatKey(nodeId: string): string {
    HEARTBEAT_PREFIX + nodeId
  }

  function AssignKey(nodeId: string): string {
    ASSIGN_KEY_PREFIX + nodeId
  }

  // ---------------------------------------------------------------------
  // Reads, as functions of the stored values at a given instant
  // ---------------------------------------------------------------------

  /** getActiveNodes: the live heartbeat keys with every occurrence of the prefix removed. */
  function ActiveNodes(values: map<string, Entry>, now: nat): set<string> {
    set k | k in values && StartsWith(k, HEARTBEAT_PREFIX) && LiveAt(values[k], now)
      :: RemoveAll(k, HEARTBEAT_PREFIX)
  }

  /** The node whose lease is live, if any. */
  function LeaderOf(values: map<string, Entry>, now: nat): Option<Value> {
    Lookup(values, LEADER_KEY, now)
  }

  /** getAssignmentRange. */
  function AssignmentOf(values: map<string, Entry>, nodeId: string, now: nat): Assignment {
    match Lookup(values, AssignKey(nodeId), now)
    case None => Unassigned
    case Some(RangeJson(s, e)) => Assigned(Range(s, e))
    case Some(Text(_)) => NotARange
  }

  /** Every heartbeat key in the store is the prefix followed by an identifier without ':'. */
  predicate WellFormedHeartbeats(values: map<string, Entry>) {
    forall k :: k in values && StartsWith(k, HEARTBEAT_PREFIX) ==> ColonFree(k[|HEARTBEAT_PREFIX|..])
  }

  // ---------------------------------------------------------------------
  // Key layout
  // ---------------------------------------------------------------------

  /** Removing a target from a string that lacks one of the target's characters changes nothing. */
  lemma {:induction false} RemoveAllMissing(s: string, target: string, c: char)
    requires |target| > 0 && c in target
    requires forall i :: 0 <= i < |s| ==> s[i] != c
    ensures RemoveAll(s, target) == s
    decreases |s|
  {
    if |s| >= |target| {
      var j :| 0 <= j < |target| && target[j] == c;
      assert s[..|target|][j] == s[j];
      assert s[..|target|] != target;
      RemoveAllMissing(s[1..], target, c);
      assert s == [s[0]] + s[1..];
    }
  }

  /** The node identifier is recovered from its heartbeat key when it has no ':'. */
  lemma HeartbeatKeyRoundTrip(nodeId: string)
    requires ColonFree(nodeId)
    ensures RemoveAll(HeartbeatKey(nodeId), HEARTBEAT_PREFIX) == nodeId
  {
    var k := HeartbeatKey(nodeId);
    assert k[..|HEARTBEAT_PREFIX|] == HEARTBEAT_PREFIX;
    assert k[|HEARTBEAT_PREFIX|..] == nodeId;
    assert HEARTBEAT_PREFIX[4] == ':';
    RemoveAllMissing(nodeId, HEARTBEAT_PREFIX, ':');
  }

  /** Heartbeat keys, the leader key and assignment keys never collide. */
  lemma KeySpacesDisjoint(a: string, b: string)
    ensures !StartsWith(AssignKey(a), HEARTBEAT_PREFIX)
    ensures !StartsWith(LEADER_KEY, HEARTBEAT_PREFIX)
    ensures AssignKey(a) != LEADER_KEY && HeartbeatKey(b) != LEADER_KEY
    ensures AssignKey(a) != HeartbeatKey(b)
  {
    assert AssignKey(a)[5] == 'a' && HEARTBEAT_PREFIX[5] == 'n' && LEADER_KEY[5] == 'l';
    assert HeartbeatKey(b)[5] == 'n';
  }

  lemma AssignKeyInjective(a: string, b: string)
    requires AssignKey(a) == AssignKey(b)
    ensures a == b
  {
    assert a == AssignKey(a)[|ASSIGN_KEY_PREFIX|..];
    assert b == AssignKey(b)[|ASSIGN_KEY_PREFIX|..];
  }

  // ---------------------------------------------------------------------
  // Properties of the reads
  // ---------------------------------------------------------------------

  /**
   * With well-formed heartbeat keys, a node is listed as active exactly when
   * its own heartbeat key holds a live value.
   */
  lemma ActiveNodesExact(values: map<string, Entry>, now: nat, nodeId: string)
    requires WellFormedHeartbeats(values) && ColonFree(nodeId)
    ensures nodeId in ActiveNodes(values, now) <==>
              HeartbeatKey(nodeId) in values && LiveAt(values[HeartbeatKey(nodeId)], now)
  {
    var key := HeartbeatKey(nodeId);
    if key in values && LiveAt(values[key], now) {
      HeartbeatKeyRoundTrip(nodeId);
      assert StartsWith(key, HEARTBEAT_PREFIX);
    }
    if nodeId in ActiveNodes(values, now) {
      var k :| k in values && StartsWith(k, HEARTBEAT_PREFIX) && LiveAt(values[k], now)
               && RemoveAll(k, HEARTBEAT_PREFIX) == nodeId;
      var suffix := k[|HEARTBEAT_PREFIX|..];
      assert k == HeartbeatKey(suffix);
      HeartbeatKeyRoundTrip(suffix);
      assert k == key;
    }
  }

  /**
   * A heartbeat sent at time t keeps the node in the active set until
   * t + 5000 ms and not a moment longer, unless it is renewed.
   */
  lemma HeartbeatLiveness(values: map<string, Entry>, nodeId: string, t: nat, now: nat)
    requires WellFormedHeartbeats(values) && ColonFree(nodeId)
    ensures WellFormedHeartbeats(values[HeartbeatKey(nodeId) := Entry(Text("alive"), Some(t + HEARTBEAT_TTL_MS))])
    ensures nodeId in ActiveNodes(values[HeartbeatKey(nodeId) := Entry(Text("alive"), Some(t + HEARTBEAT_TTL_MS))], now)
            <==> now < t + HEARTBEAT_TTL_MS
  {
    var key := HeartbeatKey(nodeId);
    var values' := values[key := Entry(Text("alive"), Some(t + HEARTBEAT_TTL_MS))];
    assert key[|HEARTBEAT_PREFIX|..] == nodeId;
    assert WellFormedHeartbeats(values');
    ActiveNodesExact(values', now, nodeId);
  }

  /** Writing an assignment leaves the set of active nodes as it was. */
  lemma AssignmentKeepsActiveNodes(values: map<string, Entry>, nodeId: string, e: Entry, now: nat)
    ensures ActiveNodes(values[AssignKey(nodeId) := e], now) == ActiveNodes(values, now)
  {
    KeySpacesDisjoint(nodeId, "");
    var values' := values[AssignKey(nodeId) := e];
    forall k | k in values' && StartsWith(k, HEARTBEAT_PREFIX)
      ensures k in values && values'[k] == values[k]
    {
      assert k != AssignKey(nodeId);
    }
  }

  /** An assignment, once written, reads back as the same range at any later time. */
  lemma AssignmentRoundTrip(values: map<string, Entry>, nodeId: string, other: string, r: Range, now: nat)
    ensures AssignmentOf(values[AssignKey(nodeId) := Entry(RangeJson(r.start, r.end), None)], nodeId, now) == Assigned(r)
    ensures other != nodeId ==>
      AssignmentOf(values[AssignKey(nodeId) := Entry(RangeJson(r.start, r.end), None)], other, now)
      == AssignmentOf(values, other, now)
  {
    if other != nodeId && AssignKey(other) == AssignKey(nodeId) {
      AssignKeyInjective(other, nodeId);
    }
  }

  /** RedisClusterStateAdapter: the cluster-state port over the shared store. */
  class ClusterStateAdapter {
    const store: KvStore

    constructor (store: KvStore)
      ensures this.store == store
    {
      this.store := store;
    }

    /** sendHeartbeat: (re)sets the node's heartbeat key to "alive" for 5 seconds. */
    method SendHeartbeat(nodeId: string, now: nat)
      modifies store
      ensures store.values == old(store.values)[HeartbeatKey(nodeId) := Entry(Text("alive"), Some(now + HEARTBEAT_TTL_MS))]
      ensures store.lists == old(store.lists) && store.zsets == old(store.zsets)
    {
      store.SetWithTtl(HeartbeatKey(nodeId), Text("alive"), HEARTBEAT_TTL_MS, now);
    }

    function GetActiveNodes(now: nat): set<string>
      reads store
    {
      ActiveNodes(store.values, now)
    }

    /** isLeader: the live lease names this node. */
    function IsLeader(nodeId: string, now: nat): bool
      reads store
    {
      LeaderOf(store.values, now) == Some(Text(nodeId))
    }

    /** tryAcquireLeadership: takes the lease for 10 seconds when no live lease exists. */
    method TryAcquireLeadership(nodeId: string, now: nat) returns (acquired: bool)
      modifies store
      ensures acquired <==> old(LeaderOf(store.values, now)).None?
      ensures acquired ==> store.values == old(store.values)[LEADER_KEY := Entry(Text(nodeId), Some(now + LEADER_TTL_MS))]
      ensures !acquired ==> store.values == old(store.values)
      ensures store.lists == old(store.lists) && store.zsets == old(store.zsets)
    {
      acquired := store.SetIfAbsent(LEADER_KEY, Text(nodeId), LEADER_TTL_MS, now);
    }

    /** extendLeadership: renews the lease for 10 seconds, only if this node holds it. */
    method ExtendLeadership(nodeId: string, now: nat)
      modifies store
      ensures old(IsLeader(nodeId, now)) ==>
        store.values == old(store.values)[LEADER_KEY := Entry(Text(nodeId), Some(now + LEADER_TTL_MS))]
      ensures !old(IsLeader(nodeId, now)) ==> store.values == old(store.values)
      ensures store.lists == old(store.lists) && store.zsets == old(store.zsets)
    {
      var current := store.Get(LEADER_KEY, now);
      if current == Some(Text(nodeId)) {
        var _ := store.Expire(LEADER_KEY, LEADER_TTL_MS, now);
      }
    }

    /** saveAssignmentRange: stores the node's range as JSON, without an expiry. */
    method SaveAssignmentRange(nodeId: string, start: Int32, end: Int32)
      modifies store
      ensures store.values == old(store.values)[AssignKey(nodeId) := Entry(RangeJson(start, end), None)]
      ensures store.lists == old(store.lists) && store.zsets == old(store.zsets)
    {
      store.Set(AssignKey(nodeId), RangeJson(start, end));
    }

    function GetAssignmentRange(nodeId: string, now: nat): Assignment
      reads store
    {
      AssignmentOf(store.values, nodeId, now)
    }
  }
}
