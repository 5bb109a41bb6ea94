/**
 * ResourceCleanupService: every provisioned container is registered in the
 * sorted set "prov:gc:container" as "functionId:instanceId:agentIp", scored
 * by its expiry time (fifteen minutes after provisioning).  A periodic sweep
 * takes the members whose expiry has passed, removes their idle-list entries
 * (whoever runs the sweep), and then arbitrates: the owning host deletes the
 * container and its instance directory and forgets the member; another host
 * forgets a member only once it is more than three minutes overdue, and
 * otherwise leaves it for its owner.
 */
module Cleanup {
  import opened Common
  import opened Store
  import opened Host
  import opened Docker
  import opened Uuids

  const GC_CONTAINER_KEY: string := "prov:gc:container"
  const IDLE_QUEUE_PREFIX: string := "func:idle:"
  /** How long after registration a container becomes collectable: fifteen minutes. */
  const GC_TTL_MS: nat := 900000
  /** How long a foreign host waits for the owner before forgetting a member: three minutes. */
  const GRACE_PERIOD_MS: nat := 180000

  /** The idle list (warm pool) of a function. */
  function IdleKey(functionId: string): string {
    IDLE_QUEUE_PREFIX + functionId
  }

  /** The socket path of an instance relative to the workspace, as published in ContainerInfo. */
  function SockRelPath(functionId: string, instanceId: string): string {
    "instances/" + functionId + "/" + instanceId + "/sock/function.sock"
  }

  /** `<workspace>/instances/<functionId>/<instanceId>`. */
  function InstanceDir(workspace: string, functionId: string, instanceId: string): string {
    workspace + "/instances/" + functionId + "/" + instanceId
  }

  /** The sorted-set member of a registered container. */
  function GcMember(functionId: string, instanceId: string, agentIp: string): string {
    functionId + ":" + instanceId + ":" + agentIp
  }

  datatype MemberParts = MemberParts(functionId: string, instanceId: string, agentIp: string)

  /** member.split(":") and its first three parts; fewer parts is the index error the sweep logs and skips. */
  function ParseMember(member: string): (r: Option<MemberParts>)
    ensures r.Some? <==> |JavaSplit(member, ':')| >= 3
  {
    var parts := JavaSplit(member, ':');
    if |parts| < 3 then None else Some(MemberParts(parts[0], parts[1], parts[2]))
  }

  /** The idle-list element the sweep removes for a member: ContainerInfo(agentIp, socket path). */
  function IdleEntry(p: MemberParts): Payload {
    ContainerJson(ContainerInfo(p.agentIp, SockRelPath(p.functionId, p.instanceId)), PlainJson)
  }

  lemma SplitTwo(b: string, c: string)
    requires ColonFree(b) && ColonFree(c)
    ensures SplitFields(b + ":" + c, ':') == [b, c]
  {
    SplitFieldsNone(c, ':');
    assert b + ":" + c == b + [':'] + c;
    SplitFieldsHead(b, ':', c);
  }

  lemma SplitThree(a: string, b: string, c: string)
    requires ColonFree(a) && ColonFree(b) && ColonFree(c) && |c| > 0
    ensures JavaSplit(a + ":" + b + ":" + c, ':') == [a, b, c]
  {
    var t := b + ":" + c;
    var s := a + ":" + b + ":" + c;
    SplitTwo(b, c);
    assert s == a + [':'] + t;
    SplitFieldsHead(a, ':', t);
    assert SplitFields(s, ':') == [a, b, c];
    assert s[|a|] == ':';
    assert !(forall i :: 0 <= i < |s| ==> s[i] != ':');
  }

  /**
   * The sweep recovers exactly what provisioning registered: for UUID
   * function and instance ids and a non-empty host address without ':', the
   * member parses back into its three parts, and the idle entry it removes is
   * the ContainerInfo provisioning published for that instance.
   */
  lemma MemberRoundTrip(functionId: Uuid, instanceId: Uuid, agentIp: string)
    requires ColonFree(agentIp) && |agentIp| > 0
    ensures ParseMember(GcMember(ToString(functionId), ToString(instanceId), agentIp))
            == Some(MemberParts(ToString(functionId), ToString(instanceId), agentIp))
    ensures IdleEntry(MemberParts(ToString(functionId), ToString(instanceId), agentIp))
            == ContainerJson(ContainerInfo(agentIp, SockRelPath(ToString(functionId), ToString(instanceId))), PlainJson)
  {
    ToStringAvoids(functionId, ':');
    ToStringAvoids(instanceId, ':');
    SplitThree(ToString(functionId), ToString(instanceId), agentIp);
  }

  /** An empty host address leaves only two parts after split, so such a member is skipped. */
  lemma EmptyAddressUnparsable(functionId: Uuid, instanceId: Uuid)
    ensures ParseMember(GcMember(ToString(functionId), ToString(instanceId), "")).None?
  {
    var a, b := ToString(functionId), ToString(instanceId);
    ToStringAvoids(functionId, ':');
    ToStringAvoids(instanceId, ':');
    var s := GcMember(a, b, "");
    assert s == a + [':'] + (b + [':'] + "");
    assert s[|a|] == ':';
    SplitFieldsNone("", ':');
    SplitFieldsHead(b, ':', "");
    SplitFieldsHead(a, ':', b + [':'] + "");
    assert SplitFields(s, ':') == [a, b, ""];
    assert DropTrailingEmpty([a, b, ""]) == DropTrailingEmpty([a, b]);
  }

  // ---------------------------------------------------------------------
  // The sweep as a function of the sorted set it starts from
  // ---------------------------------------------------------------------

  /** What the sweep does with a well-formed member. */
  datatype Action = DeleteLocal | ForgetOrphan | WaitForOwner

  /** The owner deletes; others forget a member only when it is more than the grace period overdue. */
  function ActionFor(p: MemberParts, expiry: int, now: nat, myIp: string): (a: Action)
    ensures a == DeleteLocal <==> p.agentIp == myIp
    ensures a == ForgetOrphan <==> p.agentIp != myIp && now - expiry > GRACE_PERIOD_MS
  {
    if p.agentIp == myIp then DeleteLocal
    else if now - expiry > GRACE_PERIOD_MS then ForgetOrphan
    else WaitForOwner
  }

  /** The score of a member; a missing score counts as expiry 0. */
  function ExpiryOf(z: map<string, int>, member: string): int {
    if member in z then z[member] else 0
  }

  /** The GC sorted set, empty when the key is absent. */
  function GcSet(zsets: map<string, map<string, int>>): map<string, int> {
    if GC_CONTAINER_KEY in zsets then zsets[GC_CONTAINER_KEY] else map[]
  }

  /** ZRANGEBYSCORE 0 now: the members that have expired by `now`. */
  function Expired(z: map<string, int>, now: nat): set<string> {
    set m | m in z && 0 <= z[m] <= now
  }

  /** The members of `done` the sweep handles with action `a`. */
  function Acted(z: map<string, int>, done: set<string>, now: nat, myIp: string, a: Action): set<string> {
    set m | m in done && ParseMember(m).Some? && ActionFor(ParseMember(m).value, ExpiryOf(z, m), now, myIp) == a
  }

  /** The members removed from the sorted set. */
  function Forgotten(z: map<string, int>, done: set<string>, now: nat, myIp: string): set<string> {
    Acted(z, done, now, myIp, DeleteLocal) + Acted(z, done, now, myIp, ForgetOrphan)
  }

  /** The idle-list elements removed from list `key`. */
  function GoneEntries(done: set<string>, key: string): set<Payload> {
    set m | m in done && ParseMember(m).Some? && IdleKey(ParseMember(m).value.functionId) == key
      :: IdleEntry(ParseMember(m).value)
  }

  /** The containers the owner removes. */
  function RemovedContainers(z: map<string, int>, done: set<string>, now: nat, myIp: string): set<string> {
    set m | m in done && ParseMember(m).Some? && ActionFor(ParseMember(m).value, ExpiryOf(z, m), now, myIp) == DeleteLocal
      :: ContainerName(ParseMember(m).value.instanceId)
  }

  /** The instance directories the owner deletes. */
  function RemovedDirs(workspace: string, z: map<string, int>, done: set<string>, now: nat, myIp: string): set<string> {
    set m | m in done && ParseMember(m).Some? && ActionFor(ParseMember(m).value, ExpiryOf(z, m), now, myIp) == DeleteLocal
      :: InstanceDir(workspace, ParseMember(m).value.functionId, ParseMember(m).value.instanceId)
  }

  lemma GoneEntriesStep(done: set<string>, m: string, key: string)
    ensures GoneEntries(done + {m}, key) ==
            GoneEntries(done, key) + (if ParseMember(m).Some? && IdleKey(ParseMember(m).value.functionId) == key
                                      then {IdleEntry(ParseMember(m).value)} else {})
  {
  }

  lemma ForgottenStep(z: map<string, int>, done: set<string>, now: nat, myIp: string, m: string)
    ensures Forgotten(z, done + {m}, now, myIp) ==
            Forgotten(z, done, now, myIp)
            + (if ParseMember(m).Some? && ActionFor(ParseMember(m).value, ExpiryOf(z, m), now, myIp) != WaitForOwner
               then {m} else {})
  {
  }

  lemma RemovedContainersStep(z: map<string, int>, done: set<string>, now: nat, myIp: string, m: string)
    ensures RemovedContainers(z, done + {m}, now, myIp) ==
            RemovedContainers(z, done, now, myIp)
            + (if ParseMember(m).Some? && ActionFor(ParseMember(m).value, ExpiryOf(z, m), now, myIp) == DeleteLocal
               then {ContainerName(ParseMember(m).value.instanceId)} else {})
  {
  }

  lemma RemovedDirsStep(workspace: string, z: map<string, int>, done: set<string>, now: nat, myIp: string, m: string)
    ensures RemovedDirs(workspace, z, done + {m}, now, myIp) ==
            RemovedDirs(workspace, z, done, now, myIp)
            + (if ParseMember(m).Some? && ActionFor(ParseMember(m).value, ExpiryOf(z, m), now, myIp) == DeleteLocal
               then {InstanceDir(workspace, ParseMember(m).value.functionId, ParseMember(m).value.instanceId)} else {})
  {
  }

  /** Removing a set of elements none of which occurs changes nothing. */
  lemma {:induction false} WithoutAbsent(xs: seq<Payload>, gone: set<Payload>)
    requires forall i :: 0 <= i < |xs| ==> xs[i] !in gone
    ensures Without(xs, gone) == xs
  {
    if |xs| > 0 {
      var rest := xs[1..];
      forall i | 0 <= i < |rest|
        ensures rest[i] !in gone
      {
        assert rest[i] == xs[i + 1];
      }
      WithoutAbsent(rest, gone);
      assert xs[0] !in gone;
      assert [xs[0]] + rest == xs;
    }
  }

  /**
   * A second sweep at the same time on the same host finds nothing more to
   * do: every member still expired is one it waits for (or cannot parse), so
   * it forgets nothing, deletes nothing, and removes only idle entries the
   * first sweep already removed.
   */
  lemma SweepIdempotent(z: map<string, int>, now: nat, myIp: string, workspace: string, key: string, xs: seq<Payload>)
    ensures var z' := z - Forgotten(z, Expired(z, now), now, myIp);
            var again := Expired(z', now);
            Forgotten(z', again, now, myIp) == {}
            && RemovedContainers(z', again, now, myIp) == {}
            && RemovedDirs(workspace, z', again, now, myIp) == {}
            && Without(Without(xs, GoneEntries(Expired(z, now), key)), GoneEntries(again, key))
               == Without(xs, GoneEntries(Expired(z, now), key))
  {
    var first := Expired(z, now);
    var z' := z - Forgotten(z, first, now, myIp);
    var again := Expired(z', now);
    assert again <= first;
    forall m | m in again
      ensures ExpiryOf(z', m) == ExpiryOf(z, m)
      ensures ParseMember(m).Some? ==> ActionFor(ParseMember(m).value, ExpiryOf(z, m), now, myIp) == WaitForOwner
    {
      assert m !in Forgotten(z, first, now, myIp);
    }
    assert Forgotten(z', again, now, myIp) == {};
    assert RemovedContainers(z', again, now, myIp) == {};
    assert RemovedDirs(workspace, z', again, now, myIp) == {};
    var ys := Without(xs, GoneEntries(first, key));
    assert GoneEntries(again, key) <= GoneEntries(first, key);
    WithoutAbsent(ys, GoneEntries(again, key));
  }

  /**
   * The sweep rebuilds each idle entry as plain JSON, so a copy the invoker
   * returned to the pool in its typed form is never matched: every such copy
   * stays in the list, although the container it names may be deleted.
   */
  lemma TypedCopiesSurvive(done: set<string>, key: string, xs: seq<Payload>, info: ContainerInfo)
    ensures multiset(Without(xs, GoneEntries(done, key)))[ContainerJson(info, TypedJson)]
            == multiset(xs)[ContainerJson(info, TypedJson)]
  {
  }

  /** A registration becomes collectable exactly when its fifteen minutes have passed. */
  lemma RegistrationExpiry(z: map<string, int>, member: string, registeredAt: nat, t: nat)
    ensures member in Expired(z[member := registeredAt + GC_TTL_MS], t) <==> t >= registeredAt + GC_TTL_MS
  {
  }

  /** A sweep that finds no expired member changes nothing. */
  lemma NothingExpired(z: map<string, int>, now: nat, myIp: string, workspace: string, key: string)
    requires Expired(z, now) == {}
    ensures Forgotten(z, {}, now, myIp) == {} && RemovedContainers(z, {}, now, myIp) == {}
    ensures RemovedDirs(workspace, z, {}, now, myIp) == {} && GoneEntries({}, key) == {}
  {
  }

  /** The action the sweep takes on a member, none when it does not parse. */
  function ActionOf(member: string, z: map<string, int>, now: nat, myIp: string): Option<Action> {
    if ParseMember(member).Some? then Some(ActionFor(ParseMember(member).value, ExpiryOf(z, member), now, myIp)) else None
  }

  /** Before the sweep has handled any member, nothing is removed. */
  lemma NothingSweptYet(workspace: string, z: map<string, int>, lists: map<string, seq<Payload>>, now: nat, myIp: string)
    ensures forall k :: ListOf(lists, k) == Without(ListOf(lists, k), GoneEntries({}, k))
    ensures Forgotten(z, {}, now, myIp) == {}
    ensures RemovedContainers(z, {}, now, myIp) == {}
    ensures RemovedDirs(workspace, z, {}, now, myIp) == {}
  {
    forall k ensures ListOf(lists, k) == Without(ListOf(lists, k), GoneEntries({}, k)) {
      assert GoneEntries({}, k) == {};
      WithoutNothing(ListOf(lists, k));
    }
  }

  lemma ListsStep(lists0: map<string, seq<Payload>>, pre: map<string, seq<Payload>>, post: map<string, seq<Payload>>,
                  done: set<string>, member: string)
    requires forall k :: ListOf(pre, k) == Without(ListOf(lists0, k), GoneEntries(done, k))
    requires forall k :: ListOf(post, k) ==
               if ParseMember(member).Some? && IdleKey(ParseMember(member).value.functionId) == k
               then RemoveEvery(ListOf(pre, k), IdleEntry(ParseMember(member).value)) else ListOf(pre, k)
    ensures forall k :: ListOf(post, k) == Without(ListOf(lists0, k), GoneEntries(done + {member}, k))
  {
    forall k ensures ListOf(post, k) == Without(ListOf(lists0, k), GoneEntries(done + {member}, k)) {
      GoneEntriesStep(done, member, k);
      if ParseMember(member).Some? && IdleKey(ParseMember(member).value.functionId) == k {
        var x := IdleEntry(ParseMember(member).value);
        assert GoneEntries(done + {member}, k) == GoneEntries(done, k) + {x};
        RemoveEveryWithout(ListOf(lists0, k), GoneEntries(done, k), x);
      } else {
        assert GoneEntries(done + {member}, k) == GoneEntries(done, k);
      }
    }
  }

  /** Removing two sets of keys one after the other removes their union. */
  lemma MinusTwice<V>(z: map<string, V>, a: set<string>, b: set<string>)
    ensures (z - a) - b == z - (a + b)
  {
  }

  /** One member more: it leaves the sorted set unless the sweep waits for its owner or cannot parse it. */
  lemma ZsetStep(zsets0: map<string, map<string, int>>, pre: map<string, map<string, int>>,
                 post: map<string, map<string, int>>, done: set<string>, member: string, now: nat, myIp: string)
    requires member !in done
    requires pre == if GC_CONTAINER_KEY in zsets0
                    then zsets0[GC_CONTAINER_KEY := GcSet(zsets0) - Forgotten(GcSet(zsets0), done, now, myIp)]
                    else zsets0
    requires var a := ActionOf(member, GcSet(pre), now, myIp);
             post == if a.Some? && a.value != WaitForOwner && GC_CONTAINER_KEY in pre
                     then pre[GC_CONTAINER_KEY := GcSet(pre) - {member}] else pre
    ensures ActionOf(member, GcSet(pre), now, myIp) == ActionOf(member, GcSet(zsets0), now, myIp)
    ensures post == if GC_CONTAINER_KEY in zsets0
                    then zsets0[GC_CONTAINER_KEY := GcSet(zsets0) - Forgotten(GcSet(zsets0), done + {member}, now, myIp)]
                    else zsets0
  {
    var z := GcSet(zsets0);
    ForgottenStep(z, done, now, myIp, member);
    if GC_CONTAINER_KEY in zsets0 {
      assert member !in Forgotten(z, done, now, myIp);
      assert ExpiryOf(GcSet(pre), member) == ExpiryOf(z, member);
      var a := ActionOf(member, z, now, myIp);
      assert GcSet(pre) == z - Forgotten(z, done, now, myIp);
      if a.Some? && a.value != WaitForOwner {
        assert Forgotten(z, done + {member}, now, myIp) == Forgotten(z, done, now, myIp) + {member};
        MinusTwice(z, Forgotten(z, done, now, myIp), {member});
        assert post == zsets0[GC_CONTAINER_KEY := GcSet(pre) - {member}];
      } else {
        assert Forgotten(z, done + {member}, now, myIp) == Forgotten(z, done, now, myIp);
      }
    }
  }

  /** One member more: an owned one loses its container and its instance directory. */
  lemma MachineStep(workspace: string, z: map<string, int>, containers0: map<string, Container>, dirs0: set<string>,
                    pre: map<string, Container>, post: map<string, Container>, dirsPre: set<string>, dirsPost: set<string>,
                    done: set<string>, member: string, now: nat, myIp: string)
    requires pre == containers0 - RemovedContainers(z, done, now, myIp)
    requires dirsPre == PrunedAll(dirs0, RemovedDirs(workspace, z, done, now, myIp))
    requires var p := ParseMember(member);
             post == (if ActionOf(member, z, now, myIp) == Some(DeleteLocal)
                      then pre - {ContainerName(p.value.instanceId)} else pre)
             && dirsPost == (if ActionOf(member, z, now, myIp) == Some(DeleteLocal)
                             then Pruned(dirsPre, InstanceDir(workspace, p.value.functionId, p.value.instanceId))
                             else dirsPre)
    ensures post == containers0 - RemovedContainers(z, done + {member}, now, myIp)
    ensures dirsPost == PrunedAll(dirs0, RemovedDirs(workspace, z, done + {member}, now, myIp))
  {
    RemovedContainersStep(z, done, now, myIp, member);
    RemovedDirsStep(workspace, z, done, now, myIp, member);
    if ActionOf(member, z, now, myIp) == Some(DeleteLocal) {
      var p := ParseMember(member).value;
      MinusTwice(containers0, RemovedContainers(z, done, now, myIp), {ContainerName(p.instanceId)});
      PrunedStep(dirs0, RemovedDirs(workspace, z, done, now, myIp), InstanceDir(workspace, p.functionId, p.instanceId));
    } else {
      assert RemovedContainers(z, done + {member}, now, myIp) == RemovedContainers(z, done, now, myIp);
      assert RemovedDirs(workspace, z, done + {member}, now, myIp) == RemovedDirs(workspace, z, done, now, myIp);
    }
  }

  class ResourceCleanupService {
    const store: KvStore
    const machine: Machine
    const workspace: string

    constructor (store: KvStore, machine: Machine, workspace: string)
      ensures this.store == store && this.machine == machine && this.workspace == workspace
    {
      this.store := store;
      this.machine := machine;
      this.workspace := workspace;
    }

    /** registerContainer: adds the member with score now + fifteen minutes. */
    method RegisterContainer(functionId: string, instanceId: string, agentIp: string, now: nat)
      modifies store
      ensures store.zsets == old(store.zsets)[GC_CONTAINER_KEY :=
                old(GcSet(store.zsets))[GcMember(functionId, instanceId, agentIp) := now + GC_TTL_MS]]
      ensures store.values == old(store.values) && store.lists == old(store.lists)
    {
      store.ZAdd(GC_CONTAINER_KEY, GcMember(functionId, instanceId, agentIp), now + GC_TTL_MS);
    }

    /**
     * The body of the sweep loop for one member: a member that does not split
     * into three parts is skipped; otherwise its idle entries are removed and
     * the owner / overdue / wait decision is taken on its current score.
     */
    method HandleMember(member: string, now: nat, myIp: string)
      modifies store, machine
      ensures var parts := ParseMember(member);
              var a := ActionOf(member, old(GcSet(store.zsets)), now, myIp);
              && store.values == old(store.values)
              && (forall k :: ListOf(store.lists, k) ==
                    if parts.Some? && IdleKey(parts.value.functionId) == k
                    then RemoveEvery(old(ListOf(store.lists, k)), IdleEntry(parts.value)) else old(ListOf(store.lists, k)))
              && store.zsets == (if a.Some? && a.value != WaitForOwner && GC_CONTAINER_KEY in old(store.zsets)
                                 then old(store.zsets)[GC_CONTAINER_KEY := old(GcSet(store.zsets)) - {member}]
                                 else old(store.zsets))
              && machine.containers == (if a == Some(DeleteLocal)
                                        then old(machine.containers) - {ContainerName(parts.value.instanceId)}
                                        else old(machine.containers))
              && machine.dirs == (if a == Some(DeleteLocal)
                                  then Pruned(old(machine.dirs), InstanceDir(workspace, parts.value.functionId, parts.value.instanceId))
                                  else old(machine.dirs))
              && machine.files == (if a == Some(DeleteLocal)
                                   then Pruned(old(machine.files), InstanceDir(workspace, parts.value.functionId, parts.value.instanceId))
                                   else old(machine.files))
    {
      var parts := ParseMember(member);
      if parts.Some? {
        var p := parts.value;
        var _ := store.ListRemove(IdleKey(p.functionId), IdleEntry(p));
        var score := store.Score(GC_CONTAINER_KEY, member);
        var expiry := if score.Some? then score.value else 0;
        if p.agentIp == myIp {
          RemoveContainer(machine, p.instanceId);
          var _ := machine.DeleteRecursively(InstanceDir(workspace, p.functionId, p.instanceId));
          store.ZRemove(GC_CONTAINER_KEY, member);
        } else if now - expiry > GRACE_PERIOD_MS {
          store.ZRemove(GC_CONTAINER_KEY, member);
        }
      }
    }

    /**
     * cleanupExpiredContainers: for each member expired by `now` (in any
     * order), removes its idle entries, then deletes the container and the
     * instance directory and forgets the member when this host owns it, or
     * only forgets it when another host has left it overdue for longer than
     * the grace period.
     */
    method CleanupExpiredContainers(now: nat, myIp: string)
      modifies store, machine
      ensures var z := old(GcSet(store.zsets));
              var swept := Expired(z, now);
              && store.values == old(store.values)
              && (forall k :: store.List(k) == Without(old(store.List(k)), GoneEntries(swept, k)))
              && store.zsets == (if GC_CONTAINER_KEY in old(store.zsets)
                                 then old(store.zsets)[GC_CONTAINER_KEY := z - Forgotten(z, swept, now, myIp)]
                                 else old(store.zsets))
              && machine.containers == old(machine.containers) - RemovedContainers(z, swept, now, myIp)
              && machine.dirs == PrunedAll(old(machine.dirs), RemovedDirs(workspace, z, swept, now, myIp))
              && machine.files == PrunedAll(old(machine.files), RemovedDirs(workspace, z, swept, now, myIp))
    {
      ghost var z := GcSet(store.zsets);
      ghost var lists0 := store.lists;
      ghost var dirs0, files0 := machine.dirs, machine.files;
      var expired := store.RangeByScore(GC_CONTAINER_KEY, 0, now);
      assert expired == Expired(z, now);
      var todo := expired;
      ghost var done: set<string> := {};
      NothingSweptYet(workspace, z, lists0, now, myIp);
      assert z - Forgotten(z, done, now, myIp) == z;
      if GC_CONTAINER_KEY in store.zsets {
        assert store.zsets[GC_CONTAINER_KEY := z] == store.zsets;
      }
      PrunedNone(dirs0);
      PrunedNone(files0);
      while todo != {}
        invariant todo <= expired && done == expired - todo
        invariant store.values == old(store.values)
        invariant forall k :: ListOf(store.lists, k) == Without(ListOf(lists0, k), GoneEntries(done, k))
        invariant store.zsets == (if GC_CONTAINER_KEY in old(store.zsets)
                                  then old(store.zsets)[GC_CONTAINER_KEY := z - Forgotten(z, done, now, myIp)]
                                  else old(store.zsets))
        invariant machine.containers == old(machine.containers) - RemovedContainers(z, done, now, myIp)
        invariant machine.dirs == PrunedAll(dirs0, RemovedDirs(workspace, z, done, now, myIp))
        invariant machine.files == PrunedAll(files0, RemovedDirs(workspace, z, done, now, myIp))
        decreases |todo|
      {
        var member :| member in todo;
        ghost var listsPre, zsetsPre := store.lists, store.zsets;
        ghost var containersPre, dirsPre, filesPre := machine.containers, machine.dirs, machine.files;
        HandleMember(member, now, myIp);
        ListsStep(lists0, listsPre, store.lists, done, member);
        ZsetStep(old(store.zsets), zsetsPre, store.zsets, done, member, now, myIp);
        MachineStep(workspace, z, old(machine.containers), dirs0, containersPre, machine.containers,
                    dirsPre, machine.dirs, done, member, now, myIp);
        MachineStep(workspace, z, old(machine.containers), files0, containersPre, machine.containers,
                    filesPre, machine.files, done, member, now, myIp);
        todo := todo - {member};
        done := done + {member};
      }
      assert done == expired;
      forall k ensures store.List(k) == Without(old(store.List(k)), GoneEntries(expired, k)) {
        assert old(store.List(k)) == ListOf(lists0, k);
      }
    }
  }
}
