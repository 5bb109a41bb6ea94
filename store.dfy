/**
 * The shared Redis instance as the control plane uses it: string values
 * with an optional time-to-live, lists used as queues, and one sorted set.
 * Time is an explicit parameter in milliseconds; a value whose expiry time
 * has been reached reads as absent.  List elements are kept in their
 * deserialized form (see Payload) rather than as JSON text.
 */
module Store {
  import opened Common

  /** Where a warm container can be reached: the agent's host address and its socket path. */
  datatype ContainerInfo = ContainerInfo(agentIp: string, sockPath: string)

  /**
   * How a ContainerInfo was written: as plain JSON text by a string template
   * (the provisioner's publish, and the JSON the garbage collector rebuilds),
   * or by the invoker's GenericJackson2Json template, which adds the class
   * name to the object.  The two texts differ, so LREM with one never
   * matches the other.
   */
  datatype JsonForm = PlainJson | TypedJson

  /** An element of a Redis list. */
  datatype Payload =
    | ContainerJson(info: ContainerInfo, form: JsonForm)  // {"agentIp": .., "sockPath": ..}
    | ColdStartJson(functionId: string, s3Key: string)    // {"functionId": .., "s3Key": ..}
    | Other(text: string)                                 // JSON of any other shape

  /** A string value: plain text, or a partition range serialized as JSON. */
  datatype Value = Text(text: string) | RangeJson(start: Int32, end: Int32)

  datatype Entry = Entry(value: Value, expiresAt: Option<nat>)

  predicate LiveAt(e: Entry, now: nat) {
    e.expiresAt.None? || now < e.expiresAt.value
  }

  /** GET: the value stored under `key`, unless it has expired. */
  function Lookup(values: map<string, Entry>, key: string, now: nat): (r: Option<Value>)
    ensures r.Some? <==> key in values && LiveAt(values[key], now)
    ensures r.Some? ==> r.value == values[key].value
  {
    if key in values && LiveAt(values[key], now) then Some(values[key].value) else None
  }

  /** LREM key 0 x: every element equal to `x` is removed, the rest keep their order. */
  function RemoveEvery(xs: seq<Payload>, x: Payload): (r: seq<Payload>)
    ensures |r| <= |xs|
    ensures forall i :: 0 <= i < |r| ==> r[i] != x
    ensures multiset(r) == multiset(xs)[x := 0]
  {
    if |xs| == 0 then []
    else
      assert xs == [xs[0]] + xs[1..];
      if xs[0] == x then RemoveEvery(xs[1..], x) else [xs[0]] + RemoveEvery(xs[1..], x)
  }

  /** Removing a value that is not present changes nothing. */
  lemma {:induction false} RemoveEveryAbsent(xs: seq<Payload>, x: Payload)
    requires x !in xs
    ensures RemoveEvery(xs, x) == xs
  {
    if |xs| > 0 {
      assert xs[0] != x && x !in xs[1..];
      RemoveEveryAbsent(xs[1..], x);
      assert xs == [xs[0]] + xs[1..];
    }
  }

  /** The elements of `xs` that are not in `gone`, in their original order. */
  function Without(xs: seq<Payload>, gone: set<Payload>): (r: seq<Payload>)
    ensures forall i :: 0 <= i < |r| ==> r[i] !in gone && r[i] in xs
    ensures forall x :: x !in gone ==> multiset(r)[x] == multiset(xs)[x]
    ensures forall x :: x in gone ==> multiset(r)[x] == 0
  {
    if |xs| == 0 then []
    else
      assert xs == [xs[0]] + xs[1..];
      if xs[0] in gone then Without(xs[1..], gone)
      else [xs[0]] + Without(xs[1..], gone)
  }

  /** Removal keeps the order of what stays: it distributes over concatenation. */
  lemma {:induction false} WithoutAppend(a: seq<Payload>, b: seq<Payload>, gone: set<Payload>)
    ensures Without(a + b, gone) == Without(a, gone) + Without(b, gone)
  {
    if |a| == 0 {
      assert a + b == b;
    } else {
      assert (a + b)[1..] == a[1..] + b;
      WithoutAppend(a[1..], b, gone);
    }
  }

  /** Successive removals amount to removing the union, whatever their order. */
  lemma {:induction false} RemoveEveryWithout(xs: seq<Payload>, gone: set<Payload>, x: Payload)
    ensures RemoveEvery(Without(xs, gone), x) == Without(xs, gone + {x})
  {
    if |xs| > 0 {
      RemoveEveryWithout(xs[1..], gone, x);
    }
  }

  lemma {:induction false} WithoutNothing(xs: seq<Payload>)
    ensures Without(xs, {}) == xs
  {
    if |xs| > 0 {
      WithoutNothing(xs[1..]);
      assert Without(xs, {}) == [xs[0]] + xs[1..];
      assert [xs[0]] + xs[1..] == xs;
    }
  }

  /** Writing a key that is then removed leaves the rest of the map as it was. */
  lemma UpdateOutside(m: map<string, seq<Payload>>, k: string, v: seq<Payload>, ks: set<string>)
    requires k in ks
    ensures m[k := v] - ks == m - ks
  {
  }

  /** The list stored under `key`; a missing key reads as the empty list. */
  function ListOf(lists: map<string, seq<Payload>>, key: string): seq<Payload> {
    if key in lists then lists[key] else []
  }

  class KvStore {
    var values: map<string, Entry>
    var lists: map<string, seq<Payload>>
    var zsets: map<string, map<string, int>>

    constructor ()
      ensures values == map[] && lists == map[] && zsets == map[]
    {
      values, lists, zsets := map[], map[], map[];
    }

    function Get(key: string, now: nat): Option<Value>
      reads this
    {
      Lookup(values, key, now)
    }

    function List(key: string): seq<Payload>
      reads this
    {
      ListOf(lists, key)
    }

    /** ZSCORE. */
    function Score(key: string, member: string): Option<int>
      reads this
    {
      if key in zsets && member in zsets[key] then Some(zsets[key][member]) else None
    }

    /** KEYS prefix*: the live keys that start with `prefix`. */
    function KeysWithPrefix(prefix: string, now: nat): set<string>
      reads this
    {
      set k | k in values && StartsWith(k, prefix) && LiveAt(values[k], now)
    }

    /** ZRANGEBYSCORE key lo hi: the members whose score lies in [lo, hi]. */
    function RangeByScore(key: string, lo: int, hi: int): set<string>
      reads this
    {
      if key in zsets then set m | m in zsets[key] && lo <= zsets[key][m] <= hi else {}
    }

    /** SET key value: stored without an expiry. */
    method Set(key: string, v: Value)
      modifies this
      ensures values == old(values)[key := Entry(v, None)]
      ensures lists == old(lists) && zsets == old(zsets)
    {
      values := values[key := Entry(v, None)];
    }

    /** SET key value PX ttl. */
    method SetWithTtl(key: string, v: Value, ttl: nat, now: nat)
      modifies this
      ensures values == old(values)[key := Entry(v, Some(now + ttl))]
      ensures lists == old(lists) && zsets == old(zsets)
    {
      values := values[key := Entry(v, Some(now + ttl))];
    }

    /** SET key value NX PX ttl: succeeds only when no live value is stored under `key`. */
    method SetIfAbsent(key: string, v: Value, ttl: nat, now: nat) returns (stored: bool)
      modifies this
      ensures stored <==> old(Get(key, now)).None?
      ensures values == if stored then old(values)[key := Entry(v, Some(now + ttl))] else old(values)
      ensures lists == old(lists) && zsets == old(zsets)
    {
      stored := Get(key, now).None?;
      if stored {
        values := values[key := Entry(v, Some(now + ttl))];
      }
    }

    /** EXPIRE key ttl: gives a live key a new expiry time; does nothing to an absent key. */
    method Expire(key: string, ttl: nat, now: nat) returns (updated: bool)
      modifies this
      ensures updated <==> old(Get(key, now)).Some?
      ensures values == if updated then old(values)[key := Entry(old(values)[key].value, Some(now + ttl))]
                        else old(values)
      ensures lists == old(lists) && zsets == old(zsets)
    {
      updated := Get(key, now).Some?;
      if updated {
        values := values[key := Entry(values[key].value, Some(now + ttl))];
      }
    }

    /** RPUSH key x. */
    method RightPush(key: string, x: Payload)
      modifies this
      ensures lists == old(lists)[key := old(List(key)) + [x]]
      ensures values == old(values) && zsets == old(zsets)
    {
      lists := lists[key := List(key) + [x]];
    }

    /** LPOP key: the head of the list, or nothing when the list is empty. */
    method LeftPop(key: string) returns (head: Option<Payload>)
      modifies this
      ensures old(List(key)) == [] ==> head.None? && lists == old(lists)
      ensures old(List(key)) != [] ==>
        head == Some(old(List(key))[0]) && lists == old(lists)[key := old(List(key))[1..]]
      ensures values == old(values) && zsets == old(zsets)
    {
      var xs := List(key);
      if xs == [] {
        head := None;
      } else {
        head := Some(xs[0]);
        lists := lists[key := xs[1..]];
      }
    }

    /**
     * BLPOP-style LPOP with a timeout: `arrivals` are the elements other
     * clients push onto the list while this client waits.  The head is taken
     * as soon as there is one; nothing is returned when nothing arrived.
     */
    method AwaitLeftPop(key: string, arrivals: seq<Payload>) returns (head: Option<Payload>)
      modifies this
      ensures old(List(key)) + arrivals == [] ==> head.None? && lists == old(lists)
      ensures old(List(key)) + arrivals != [] ==>
        head == Some((old(List(key)) + arrivals)[0])
        && lists == old(lists)[key := (old(List(key)) + arrivals)[1..]]
      ensures values == old(values) && zsets == old(zsets)
    {
      var xs := List(key) + arrivals;
      if xs == [] {
        head := None;
      } else {
        head := Some(xs[0]);
        lists := lists[key := xs[1..]];
      }
    }

    /** LREM key 0 x. */
    method ListRemove(key: string, x: Payload) returns (removed: nat)
      modifies this
      ensures lists == old(lists)[key := RemoveEvery(old(List(key)), x)]
      ensures removed == multiset(old(List(key)))[x]
      ensures values == old(values) && zsets == old(zsets)
    {
      var xs := List(key);
      removed := multiset(xs)[x];
      lists := lists[key := RemoveEvery(xs, x)];
    }

    /** ZADD key score member. */
    method ZAdd(key: string, member: string, score: int)
      modifies this
      ensures zsets == old(zsets)[key := (if key in old(zsets) then old(zsets)[key] else map[])[member := score]]
      ensures values == old(values) && lists == old(lists)
    {
      var set_ := if key in zsets then zsets[key] else map[];
      zsets := zsets[key := set_[member := score]];
    }

    /** ZREM key member. */
    method ZRemove(key: string, member: string)
      modifies this
      ensures zsets == if key in old(zsets) then old(zsets)[key := old(zsets)[key] - {member}] else old(zsets)
      ensures values == old(values) && lists == old(lists)
    {
      if key in zsets {
        zsets := zsets[key := zsets[key] - {member}];
      }
    }
  }
}
