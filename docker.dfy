/**
 * DockerAdapter: starts one function container per instance, named
 * "ins-<instanceId>", with the function package mounted read-only, the
 * socket directory mounted read-write and fixed resource limits, waits up
 * to five seconds for the runtime to create its Unix socket, and pauses the
 * container until the first invocation.  What the Docker engine and the
 * file watcher report are inputs of the model.
 */
module Docker {
  import opened Common
  import opened Host

  const CONTAINER_CODE_PATH: string := "/var/task"
  const CONTAINER_SOCK_DIR: string := "/var/run"
  const SOCKET_FILE: string := "function.sock"
  const MEMORY_BYTES: nat := 256 * 1024 * 1024
  const CPU_PERIOD: nat := 100000
  const CPU_QUOTA: nat := 50000

  /** mapRuntimeToImage: one image per runtime. */
  function ImageFor(r: Runtime): string {
    match r
    case Java17 => "runtime-java:17"
    case Java21 => "runtime-java:21"
    case Python310 => "runtime-python:3.10"
    case Python311 => "runtime-python:3.11"
    case Node18 => "runtime-node:18"
    case Node20 => "runtime-node:20"
  }

  /** Different runtimes run in different images. */
  lemma ImageForInjective(a: Runtime, b: Runtime)
    requires a != b
    ensures ImageFor(a) != ImageFor(b)
  {
    match a
    case Java17 => assert ImageFor(a)[13..] == "17";
    case Java21 => assert ImageFor(a)[13..] == "21";
    case Python310 => assert ImageFor(a)[15..] == "3.10";
    case Python311 => assert ImageFor(a)[15..] == "3.11";
    case Node18 => assert ImageFor(a)[13..] == "18";
    case Node20 => assert ImageFor(a)[13..] == "20";
  }

  /** The container of an instance. */
  function ContainerName(instanceId: string): string {
    "ins-" + instanceId
  }

  lemma ContainerNameInjective(a: string, b: string)
    requires ContainerName(a) == ContainerName(b)
    ensures a == b
  {
    assert a == ContainerName(a)[4..];
    assert b == ContainerName(b)[4..];
  }

  /** The SOCK_PATH variable every container receives, last. */
  const SOCK_PATH_ENTRY: string := "SOCK_PATH=" + CONTAINER_SOCK_DIR + "/" + SOCKET_FILE

  /**
   * `envList` is the container environment for `env`: one "k=v" per entry of
   * the function's env map (null when the map is absent), in the map's
   * iteration order, then SOCK_PATH.
   */
  predicate IsEnvList(envList: seq<string>, env: Option<seq<(string, string)>>) {
    && |envList| == (if env.Some? then |env.value| else 0) + 1
    && (env.Some? ==> forall k :: 0 <= k < |env.value| ==> envList[k] == env.value[k].0 + "=" + env.value[k].1)
    && envList[|envList| - 1] == SOCK_PATH_ENTRY
  }

  /** The loop that builds the container environment. */
  method BuildEnvList(env: Option<seq<(string, string)>>) returns (envList: seq<string>)
    ensures IsEnvList(envList, env)
  {
    envList := [];
    if env.Some? {
      var entries := env.value;
      var i := 0;
      while i < |entries|
        invariant 0 <= i <= |entries| && |envList| == i
        invariant forall k :: 0 <= k < i ==> envList[k] == entries[k].0 + "=" + entries[k].1
      {
        envList := envList + [entries[i].0 + "=" + entries[i].1];
        i := i + 1;
      }
    }
    envList := envList + [SOCK_PATH_ENTRY];
  }

  /** The two bind mounts: the package read-only at /var/task, the socket directory read-write at /var/run. */
  function Binds(hostCodePath: string, hostSockPath: string): seq<string> {
    [hostCodePath + ":" + CONTAINER_CODE_PATH + ":ro", hostSockPath + ":" + CONTAINER_SOCK_DIR + ":rw"]
  }

  // ---------------------------------------------------------------------
  // Waiting for the socket
  // ---------------------------------------------------------------------

  /** One WatchService.poll: nothing within the remaining time, or the created names and whether the key stays valid. */
  datatype Poll = TimedOut | Events(created: seq<string>, keyValid: bool)

  /**
   * What the watcher reports: registration failed (an I/O error), or whether
   * the socket already existed right after registration and the successive
   * polls until the five seconds ran out.
   */
  datatype SocketWatch = WatchFailed | Watching(existedAtRegistration: bool, polls: seq<Poll>)

  /** The outcome of the poll loop from the given polls on; `existsAtEnd` is the final file.exists(). */
  function PollResult(polls: seq<Poll>, existsAtEnd: bool): bool {
    if |polls| == 0 then existsAtEnd
    else match polls[0]
      case TimedOut => false
      case Events(created, keyValid) =>
        if SOCKET_FILE in created then true
        else if !keyValid then existsAtEnd
        else PollResult(polls[1..], existsAtEnd)
  }

  /** waitForSocketFile's result. */
  function SocketReady(watch: SocketWatch, existsAtEnd: bool): bool {
    match watch
    case WatchFailed => existsAtEnd
    case Watching(existed, polls) => existed || PollResult(polls, existsAtEnd)
  }

  /** The poll loop succeeds only on evidence: a creation event before any timeout, or the final check. */
  lemma {:induction false} PollResultEvidence(polls: seq<Poll>, existsAtEnd: bool)
    requires PollResult(polls, existsAtEnd)
    ensures existsAtEnd || exists k :: 0 <= k < |polls| && polls[k].Events? && SOCKET_FILE in polls[k].created
  {
    if |polls| > 0 && polls[0].Events? && SOCKET_FILE !in polls[0].created && polls[0].keyValid {
      PollResultEvidence(polls[1..], existsAtEnd);
      if !existsAtEnd {
        var k :| 0 <= k < |polls| - 1 && polls[1..][k].Events? && SOCKET_FILE in polls[1..][k].created;
        assert polls[k + 1] == polls[1..][k];
      }
    }
  }

  /** A timed-out poll fails the wait even if the socket appears afterwards. */
  lemma TimeoutBeforeEvents(polls: seq<Poll>, existsAtEnd: bool)
    requires |polls| > 0 && polls[0] == TimedOut
    ensures !SocketReady(Watching(false, polls), existsAtEnd)
  {
  }

  /**
   * waitForSocketFile: true at once if the socket exists after registering
   * the watcher; then one poll per round until a creation event names the
   * socket (true), a poll times out (false) or the key becomes invalid; after
   * an invalid key, the end of the polls or a watcher error, file.exists().
   */
  method WaitForSocketFile(watch: SocketWatch, existsAtEnd: bool) returns (ready: bool)
    ensures ready == SocketReady(watch, existsAtEnd)
  {
    if watch.WatchFailed? {
      return existsAtEnd;
    }
    if watch.existedAtRegistration {
      return true;
    }
    var polls := watch.polls;
    var i := 0;
    while i < |polls|
      invariant 0 <= i <= |polls|
      invariant PollResult(polls[i..], existsAtEnd) == PollResult(polls, existsAtEnd)
    {
      assert polls[i..][1..] == polls[i + 1..];
      match polls[i]
      case TimedOut =>
        return false;
      case Events(created, keyValid) =>
        if SOCKET_FILE in created {
          return true;
        }
        if !keyValid {
          break;
        }
      i := i + 1;
    }
    ready := existsAtEnd;
  }

  // ---------------------------------------------------------------------
  // Containers
  // ---------------------------------------------------------------------

  /**
   * What the Docker engine reports for one provisioning: the id of the
   * created container (none when creation fails), whether it started, the
   * socket watch, and whether pausing succeeded.
   */
  datatype DockerOutcome = DockerOutcome(
    created: Option<string>, startOk: bool, socket: SocketWatch, socketAtEnd: bool, pauseOk: bool)

  /** The container createAndStartContainer configures. */
  function ConfiguredContainer(id: string, runtime: Runtime, envList: seq<string>, hostCodePath: string,
                               hostSockPath: string, status: ContainerStatus): Container {
    Container(id, ImageFor(runtime), envList, Binds(hostCodePath, hostSockPath),
              MEMORY_BYTES, CPU_PERIOD, CPU_QUOTA, status)
  }

  /**
   * `c` is the container the engine created with id `id` for the runtime,
   * the function's environment and the host paths, in status `status`.
   */
  predicate IsConfigured(c: Container, id: string, runtime: Runtime, env: Option<seq<(string, string)>>,
                         hostCodePath: string, hostSockPath: string, status: ContainerStatus) {
    c.id == id && c.image == ImageFor(runtime) && IsEnvList(c.env, env) && c.binds == Binds(hostCodePath, hostSockPath)
    && c.memoryBytes == MEMORY_BYTES && c.cpuPeriod == CPU_PERIOD && c.cpuQuota == CPU_QUOTA
    && c.status == status
  }

  /** The container built from the environment for `env` has the configuration the engine was asked for. */
  lemma ConfiguredIsConfigured(id: string, runtime: Runtime, env: Option<seq<(string, string)>>, envList: seq<string>,
                               hostCodePath: string, hostSockPath: string, status: ContainerStatus)
    requires IsEnvList(envList, env)
    ensures IsConfigured(ConfiguredContainer(id, runtime, envList, hostCodePath, hostSockPath, status),
                         id, runtime, env, hostCodePath, hostSockPath, status)
  {
  }

  /** Writing one name leaves every other container as it was. */
  lemma PutKeepsOthers<V>(c: map<string, V>, k: string, v: V)
    ensures c[k := v] - {k} == c - {k}
  {
  }

  /** Removing one name leaves every other container as it was. */
  lemma RemoveKeepsOthers<V>(c: map<string, V>, k: string)
    ensures (c - {k}) - {k} == c - {k}
  {
  }

  /**
   * createAndStartContainer: removes any container of the same name, creates
   * and starts the new one, and waits for its socket.  A socket that never
   * appears removes the container again and fails; otherwise the container
   * is paused (a failed pause leaves it running) and its id is returned.  A
   * creation that fails leaves no container; a start that fails leaves the
   * created one behind.
   */
  method CreateAndStartContainer(m: Machine, runtime: Runtime, instanceId: string,
                                 env: Option<seq<(string, string)>>, hostCodePath: string,
                                 hostSockPath: string, o: DockerOutcome)
    returns (r: Result<string, string>)
    modifies m
    ensures m.dirs == old(m.dirs) && m.files == old(m.files)
    ensures m.containers - {ContainerName(instanceId)} == old(m.containers) - {ContainerName(instanceId)}
    ensures r.Ok? <==> o.created.Some? && o.startOk && SocketReady(o.socket, o.socketAtEnd)
    ensures r.Ok? ==>
              (r.value == o.created.value && ContainerName(instanceId) in m.containers
               && IsConfigured(m.containers[ContainerName(instanceId)], o.created.value, runtime, env,
                               hostCodePath, hostSockPath, if o.pauseOk then Paused else Running))
    ensures r.Err? ==> (ContainerName(instanceId) in m.containers <==> o.created.Some? && !o.startOk)
    ensures r.Err? && ContainerName(instanceId) in m.containers ==>
              IsConfigured(m.containers[ContainerName(instanceId)], o.created.value, runtime, env,
                           hostCodePath, hostSockPath, Created)
  {
    var name := ContainerName(instanceId);
    ghost var others := old(m.containers) - {name};
    m.ForceRemove(name);
    RemoveKeepsOthers(old(m.containers), name);
    assert m.containers - {name} == others;
    var envList := BuildEnvList(env);
    if o.created.None? {
      return Err("Failed to start docker container");
    }
    var id := o.created.value;
    ghost var before := m.containers;
    m.PutContainer(name, ConfiguredContainer(id, runtime, envList, hostCodePath, hostSockPath, Created));
    PutKeepsOthers(before, name, ConfiguredContainer(id, runtime, envList, hostCodePath, hostSockPath, Created));
    ConfiguredIsConfigured(id, runtime, env, envList, hostCodePath, hostSockPath, Created);
    if !o.startOk {
      return Err("Failed to start docker container");
    }
    before := m.containers;
    m.PutContainer(name, ConfiguredContainer(id, runtime, envList, hostCodePath, hostSockPath, Running));
    PutKeepsOthers(before, name, ConfiguredContainer(id, runtime, envList, hostCodePath, hostSockPath, Running));
    ConfiguredIsConfigured(id, runtime, env, envList, hostCodePath, hostSockPath, Running);
    var ready := WaitForSocketFile(o.socket, o.socketAtEnd);
    if !ready {
      before := m.containers;
      m.ForceRemove(name);
      RemoveKeepsOthers(before, name);
      return Err("Container initialization failed: socket file not created.");
    }
    if o.pauseOk {
      before := m.containers;
      m.PutContainer(name, ConfiguredContainer(id, runtime, envList, hostCodePath, hostSockPath, Paused));
      PutKeepsOthers(before, name, ConfiguredContainer(id, runtime, envList, hostCodePath, hostSockPath, Paused));
      ConfiguredIsConfigured(id, runtime, env, envList, hostCodePath, hostSockPath, Paused);
    }
    r := Ok(id);
  }

  /** ContainerOrchestrationPort.removeContainer: force-removes the instance's container. */
  method RemoveContainer(m: Machine, instanceId: string)
    modifies m
    ensures m.containers == old(m.containers) - {ContainerName(instanceId)}
    ensures m.dirs == old(m.dirs) && m.files == old(m.files)
  {
    m.ForceRemove(ContainerName(instanceId));
  }
}
