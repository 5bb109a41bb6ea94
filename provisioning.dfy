/**
 * ContainerService: provisions one warm container for a function.  The
 * function package is cached per function under `<workspace>/packages/<id>`
 * and is valid when it holds config.json; each instance gets its own
 * `<workspace>/instances/<id>/<instance>/sock` directory that the container
 * mounts for its Unix socket.  A provisioned container is registered with
 * the garbage collector and then published onto the function's idle list;
 * any failure removes the container and the instance directory and
 * publishes nothing.  What S3, the config parser, Docker and Redis report
 * are inputs of the model.
 */
module Provisioning {
  import opened Common
  import opened Store
  import opened Host
  import opened Docker
  import opened Cleanup
  import opened Uuids
  import Worker

  const CONFIG_FILE: string := "config.json"

  /** `<workspace>/packages/<functionId>`. */
  function CodeDir(workspace: string, functionId: string): string {
    workspace + "/packages/" + functionId
  }

  /** `<instanceDir>/sock`. */
  function SockDir(workspace: string, functionId: string, instanceId: string): string {
    InstanceDir(workspace, functionId, instanceId) + "/sock"
  }

  /** The socket the container creates lies at the published relative path beneath the workspace. */
  lemma SocketPathLayout(workspace: string, functionId: string, instanceId: string)
    ensures Join(SockDir(workspace, functionId, instanceId), SOCKET_FILE) == workspace + "/" + SockRelPath(functionId, instanceId)
    ensures Under(SockDir(workspace, functionId, instanceId), InstanceDir(workspace, functionId, instanceId))
  {
    var inst := InstanceDir(workspace, functionId, instanceId);
    assert SockDir(workspace, functionId, instanceId)[..|inst + "/"|] == inst + "/";
  }

  /** Nothing inside a package directory lies inside an instance directory, so the collector never deletes a package. */
  lemma PackagesOutsideInstances(workspace: string, f: string, g: string, i: string, p: string)
    requires Under(p, CodeDir(workspace, f))
    ensures !Under(p, InstanceDir(workspace, g, i))
  {
    var k := |workspace| + 1;
    var code, inst := CodeDir(workspace, f), InstanceDir(workspace, g, i);
    assert code[k] == 'p' && inst[k] == 'i';
    assert |code| > k && |inst| > k;
    if p == code {
    } else {
      assert p[..|code + "/"|] == code + "/";
      assert p[k] == 'p';
    }
  }

  /** What config.json declares. */
  datatype FunctionConfig = FunctionConfig(runtime: Runtime, env: Option<seq<(string, string)>>)

  /** ContainerUseCase.Command. */
  datatype Command = Command(functionId: Uuid, s3Key: string)

  /**
   * What the collaborators report for one provisioning: the names the
   * package archive unpacks to (none when the download fails), the parse of
   * config.json (none when it is unreadable), Docker's outcome, and whether
   * the push onto the idle list succeeds.
   */
  datatype ProvisionOutcome = ProvisionOutcome(
    archive: Option<set<string>>, config: Option<FunctionConfig>, docker: DockerOutcome, publishOk: bool)

  /** Docker reports a running container whose socket appeared. */
  predicate DockerSucceeds(o: DockerOutcome) {
    o.created.Some? && o.startOk && SocketReady(o.socket, o.socketAtEnd)
  }

  lemma JoinInjective(dir: string, a: string, b: string)
    requires Join(dir, a) == Join(dir, b)
    ensures a == b
  {
    assert a == Join(dir, a)[|dir| + 1..];
    assert b == Join(dir, b)[|dir| + 1..];
  }

  /** RedisContainerResultAdapter: publishes a ready container onto the function's idle list. */
  class ContainerResultAdapter {
    const store: KvStore

    constructor (store: KvStore)
      ensures this.store == store
    {
      this.store := store;
    }

    /**
     * sendContainerInfo: appends the container at the tail of
     * "func:idle:<functionId>" and touches no other key; a failed push is
     * reported to the caller (the RuntimeException).
     */
    method SendContainerInfo(functionId: Uuid, info: ContainerInfo, pushOk: bool) returns (sent: bool)
      modifies store
      ensures sent == pushOk
      ensures store.lists == if sent
                             then old(store.lists)[IdleKey(ToString(functionId)) :=
                                                   old(store.List(IdleKey(ToString(functionId)))) + [ContainerJson(info, PlainJson)]]
                             else old(store.lists)
      ensures store.values == old(store.values) && store.zsets == old(store.zsets)
    {
      if !pushOk {
        return false;
      }
      store.RightPush(IdleKey(ToString(functionId)), ContainerJson(info, PlainJson));
      sent := true;
    }
  }

  /**
   * prepareFunctionCode: a package directory without config.json is deleted;
   * a missing package directory is created and filled from the archive (a
   * failed download deletes it again); a package still without config.json
   * is deleted and the call fails.  A valid package is reused untouched.
   */
  method PrepareFunctionCode(m: Machine, codeDir: string, archive: Option<set<string>>) returns (ok: bool, downloaded: bool)
    modifies m
    ensures ok ==> m.Exists(Join(codeDir, CONFIG_FILE))
    ensures !ok ==> !m.AnythingUnder(codeDir)
    ensures downloaded <==> !old(m.Exists(codeDir) && m.Exists(Join(codeDir, CONFIG_FILE)))
    ensures !downloaded ==> ok && m.dirs == old(m.dirs) && m.files == old(m.files)
    ensures downloaded && archive.None? ==> !ok
    ensures downloaded && archive.Some? && CONFIG_FILE in archive.value ==> ok
    ensures old(m.Exists(codeDir)) && !old(m.Exists(Join(codeDir, CONFIG_FILE))) ==>
              (ok <==> archive.Some? && CONFIG_FILE in archive.value)
    ensures m.containers == old(m.containers)
    ensures forall p :: !Under(p, codeDir) ==> (p in m.files <==> p in old(m.files))
    ensures forall p :: !Under(p, codeDir) ==>
              (p in m.dirs <==> p in old(m.dirs) || (downloaded && p in PathPrefixes(codeDir)))
  {
    var config := Join(codeDir, CONFIG_FILE);
    JoinUnder(codeDir, CONFIG_FILE);
    downloaded := false;
    if m.Exists(codeDir) && !m.Exists(config) {
      var _ := m.DeleteRecursively(codeDir);
    }
    if !m.Exists(codeDir) {
      downloaded := true;
      m.CreateDirectories(codeDir);
      if archive.None? {
        var _ := m.DeleteRecursively(codeDir);
        return false, downloaded;
      }
      m.WriteFiles(codeDir, archive.value);
      if CONFIG_FILE in archive.value {
        assert config in m.files;
      } else {
        forall n | n in archive.value ensures Join(codeDir, n) != config {
          if Join(codeDir, n) == config {
            JoinInjective(codeDir, n, CONFIG_FILE);
          }
        }
      }
    }
    if !m.Exists(config) {
      var _ := m.DeleteRecursively(codeDir);
      return false, downloaded;
    }
    ok := true;
  }

  class ContainerService {
    const store: KvStore
    const machine: Machine
    const workspace: string
    const cleanup: ResourceCleanupService
    const results: ContainerResultAdapter

    /** The collaborators share this service's store, host and workspace. */
    predicate Wired() {
      cleanup.store == store && cleanup.machine == machine && cleanup.workspace == workspace && results.store == store
    }

    constructor (store: KvStore, machine: Machine, workspace: string)
      ensures this.store == store && this.machine == machine && this.workspace == workspace
      ensures Wired()
    {
      this.store := store;
      this.machine := machine;
      this.workspace := workspace;
      cleanup := new ResourceCleanupService(store, machine, workspace);
      results := new ContainerResultAdapter(store);
    }

    /**
     * The package step of createAndRunContainer: prepareFunctionCode, then
     * the parse of config.json, whose failure deletes the package.
     */
    method PreparePackage(fid: string, archive: Option<set<string>>, config: Option<FunctionConfig>)
      returns (ok: bool)
      modifies machine
      ensures ok ==> config.Some? && machine.Exists(Join(CodeDir(workspace, fid), CONFIG_FILE))
      ensures (old(machine.Exists(CodeDir(workspace, fid)) && machine.Exists(Join(CodeDir(workspace, fid), CONFIG_FILE)))
               || (archive.Some? && CONFIG_FILE in archive.value))
              ==> (ok <==> config.Some?)
      ensures machine.containers == old(machine.containers)
    {
      var codeDir := CodeDir(workspace, fid);
      var prepared, _ := PrepareFunctionCode(machine, codeDir, archive);
      ok := prepared && config.Some?;
      if prepared && config.None? {
        var _ := machine.DeleteRecursively(codeDir);
      }
    }

    /** The socket directory and the container of a new instance, on a valid package and config. */
    method StartInstance(fid: string, iid: string, config: FunctionConfig, docker: DockerOutcome)
      returns (started: bool)
      modifies machine
      ensures started <==> DockerSucceeds(docker)
      ensures started ==>
                && ContainerName(iid) in machine.containers
                && IsConfigured(machine.containers[ContainerName(iid)], docker.created.value, config.runtime, config.env,
                                CodeDir(workspace, fid), SockDir(workspace, fid, iid),
                                if docker.pauseOk then Paused else Running)
      ensures machine.files == old(machine.files) && old(machine.dirs) <= machine.dirs
      ensures SockDir(workspace, fid, iid) in machine.dirs
      ensures machine.containers - {ContainerName(iid)} == old(machine.containers) - {ContainerName(iid)}
    {
      var sockDir := SockDir(workspace, fid, iid);
      machine.CreateDirectories(sockDir);
      var r := CreateAndStartContainer(machine, config.runtime, iid, config.env, CodeDir(workspace, fid), sockDir, docker);
      started := r.Ok?;
    }

    /** Registration with the collector, then the publish onto the idle list. */
    method Publish(functionId: Uuid, iid: string, hostIp: string, now: nat, publishOk: bool)
      returns (published: bool)
      requires Wired()
      modifies store
      ensures var fid := ToString(functionId);
              store.zsets == old(store.zsets)[GC_CONTAINER_KEY :=
                old(GcSet(store.zsets))[GcMember(fid, iid, hostIp) := now + GC_TTL_MS]]
      ensures published == publishOk
      ensures var fid := ToString(functionId);
              store.lists == if published
                             then old(store.lists)[IdleKey(fid) :=
                                    old(store.List(IdleKey(fid))) + [ContainerJson(ContainerInfo(hostIp, SockRelPath(fid, iid)), PlainJson)]]
                             else old(store.lists)
      ensures store.values == old(store.values)
    {
      var fid := ToString(functionId);
      cleanup.RegisterContainer(fid, iid, hostIp, now);
      published := results.SendContainerInfo(functionId, ContainerInfo(hostIp, SockRelPath(fid, iid)), publishOk);
    }

    /** The failure path: the instance's container is removed and its directory deleted. */
    method Discard(fid: string, iid: string)
      modifies machine
      ensures ContainerName(iid) !in machine.containers
      ensures machine.containers - {ContainerName(iid)} == old(machine.containers) - {ContainerName(iid)}
      ensures !machine.AnythingUnder(InstanceDir(workspace, fid, iid))
    {
      RemoveContainer(machine, iid);
      var _ := machine.DeleteRecursively(InstanceDir(workspace, fid, iid));
    }

    /**
     * createAndRunContainer: prepares the package, reads its config (an
     * unreadable config deletes the package), creates the socket directory,
     * starts the container, registers it with the collector and publishes
     * it.  Any failure removes the container and the instance directory and
     * is not propagated; the idle lists change only by the one published
     * element.
     */
    method CreateAndRunContainer(command: Command, instanceId: Uuid, hostIp: string, now: nat, o: ProvisionOutcome)
      returns (published: bool)
      requires Wired()
      modifies store, machine
      ensures var fid := ToString(command.functionId);
              var iid := ToString(instanceId);
              published ==>
                && o.config.Some? && DockerSucceeds(o.docker) && o.publishOk
                && machine.Exists(Join(CodeDir(workspace, fid), CONFIG_FILE))
                && store.lists == old(store.lists)[IdleKey(fid) :=
                     old(store.List(IdleKey(fid))) + [ContainerJson(ContainerInfo(hostIp, SockRelPath(fid, iid)), PlainJson)]]
                && store.zsets == old(store.zsets)[GC_CONTAINER_KEY :=
                     old(GcSet(store.zsets))[GcMember(fid, iid, hostIp) := now + GC_TTL_MS]]
                && ContainerName(iid) in machine.containers
                && IsConfigured(machine.containers[ContainerName(iid)], o.docker.created.value, o.config.value.runtime,
                                o.config.value.env, CodeDir(workspace, fid), SockDir(workspace, fid, iid),
                                if o.docker.pauseOk then Paused else Running)
      ensures var fid := ToString(command.functionId);
              var iid := ToString(instanceId);
              !published ==>
                && store.lists == old(store.lists)
                && ContainerName(iid) !in machine.containers
                && !machine.AnythingUnder(InstanceDir(workspace, fid, iid))
      ensures var fid := ToString(command.functionId);
              (old(machine.Exists(CodeDir(workspace, fid)) && machine.Exists(Join(CodeDir(workspace, fid), CONFIG_FILE)))
               || (o.archive.Some? && CONFIG_FILE in o.archive.value))
              ==> (published <==> o.config.Some? && DockerSucceeds(o.docker) && o.publishOk)
      ensures store.values == old(store.values)
      ensures var fid := ToString(command.functionId);
              var iid := ToString(instanceId);
              store.zsets == old(store.zsets)
              || store.zsets == old(store.zsets)[GC_CONTAINER_KEY :=
                   old(GcSet(store.zsets))[GcMember(fid, iid, hostIp) := now + GC_TTL_MS]]
      ensures machine.containers - {ContainerName(ToString(instanceId))}
              == old(machine.containers) - {ContainerName(ToString(instanceId))}
    {
      var fid := ToString(command.functionId);
      var iid := ToString(instanceId);
      published := false;
      var ok := PreparePackage(fid, o.archive, o.config);
      if ok {
        var started := StartInstance(fid, iid, o.config.value, o.docker);
        if started {
          published := Publish(command.functionId, iid, hostIp, now, o.publishOk);
        }
      }
      if !published {
        Discard(fid, iid);
      }
    }
  }

  /**
   * One message taken from a request queue: the worker's load-shedding
   * decision, and for a provisioning decision exactly one
   * createAndRunContainer, whose failures stay inside it.
   */
  method HandleRequest(worker: Worker.WorkerAdapter, service: ContainerService, message: Payload, containerCount: int,
                       instanceId: Uuid, hostIp: string, now: nat, o: ProvisionOutcome)
    returns (d: Worker.Dispatch, published: bool)
    requires service.Wired()
    modifies service.store, service.machine
    ensures d == Worker.Decide(worker.currentStart, worker.currentEnd, containerCount, message)
    ensures published ==> d.Provision?
    ensures d.Forward? ==>
              (service.machine.containers == old(service.machine.containers)
               && service.store.lists == old(service.store.lists)[d.queue := old(service.store.List(d.queue)) + [message]])
    ensures d.Provision? && published ==>
              service.store.lists == old(service.store.lists)[IdleKey(ToString(d.functionId)) :=
                old(service.store.List(IdleKey(ToString(d.functionId))))
                + [ContainerJson(ContainerInfo(hostIp, SockRelPath(ToString(d.functionId), ToString(instanceId))), PlainJson)]]
    ensures d.Provision? && !published ==> service.store.lists == old(service.store.lists)
    ensures d.Dropped? ==> service.store.lists == old(service.store.lists) && !published
  {
    d := worker.ProcessMessage(message, containerCount, service.store);
    published := false;
    if d.Provision? {
      published := service.CreateAndRunContainer(Command(d.functionId, d.s3Key), instanceId, hostIp, now, o);
    }
  }
}
