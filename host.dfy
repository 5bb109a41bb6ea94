/**
 * The provisioner host as the control plane sees it: a file system of
 * directories and files named by absolute paths, and the Docker engine's
 * containers, by name.  Paths are '/'-separated strings; symbolic links are
 * not modelled.
 */
module Host {
  import opened Common

  /** `path` is `dir` itself or lies beneath it. */
  predicate Under(path: string, dir: string) {
    path == dir || StartsWith(path, dir + "/")
  }

  /** Path.resolve(name) for a plain name. */
  function Join(dir: string, name: string): string {
    dir + "/" + name
  }

  /** A joined path lies beneath its directory. */
  lemma JoinUnder(dir: string, name: string)
    ensures Under(Join(dir, name), dir)
  {
    assert Join(dir, name)[..|dir + "/"|] == dir + "/";
  }

  /** The directories Files.createDirectories ensures: every ancestor of `path`, and `path` itself. */
  function PathPrefixes(path: string): (r: set<string>)
    ensures |path| > 0 ==> path in r
    ensures forall d :: d in r ==> |d| > 0 && Under(path, d)
  {
    assert |path| > 0 ==> path[..|path|] == path;
    set i | 0 < i <= |path| && (i == |path| || path[i] == '/') :: path[..i]
  }

  /** The paths of `s` that survive deleting `dir` recursively. */
  function Pruned(s: set<string>, dir: string): (r: set<string>)
    ensures r <= s
    ensures forall p :: p in r <==> p in s && !Under(p, dir)
  {
    set p | p in s && !Under(p, dir)
  }

  /** The paths of `s` that survive deleting each directory of `gone`. */
  function PrunedAll(s: set<string>, gone: set<string>): (r: set<string>)
    ensures forall p :: p in r <==> p in s && forall d :: d in gone ==> !Under(p, d)
  {
    set p | p in s && forall d :: d in gone ==> !Under(p, d)
  }

  /** Deletions compose: deleting one more directory prunes by the larger set, in any order. */
  lemma PrunedStep(s: set<string>, gone: set<string>, dir: string)
    ensures Pruned(PrunedAll(s, gone), dir) == PrunedAll(s, gone + {dir})
  {
  }

  lemma PrunedNone(s: set<string>)
    ensures PrunedAll(s, {}) == s
  {
  }

  /** Deleting twice is deleting once. */
  lemma PrunedIdempotent(s: set<string>, dir: string)
    ensures Pruned(Pruned(s, dir), dir) == Pruned(s, dir)
  {
  }

  datatype ContainerStatus = Created | Running | Paused

  /** A Docker container: its id, image, environment, bind mounts, limits and status. */
  datatype Container = Container(
    id: string, image: string, env: seq<string>, binds: seq<string>,
    memoryBytes: nat, cpuPeriod: nat, cpuQuota: nat, status: ContainerStatus)

  class Machine {
    var dirs: set<string>
    var files: set<string>
    /** Docker containers by name. */
    var containers: map<string, Container>

    constructor (dirs: set<string>, files: set<string>)
      ensures this.dirs == dirs && this.files == files && containers == map[]
    {
      this.dirs := dirs;
      this.files := files;
      containers := map[];
    }

    /** Files.exists. */
    predicate Exists(path: string)
      reads this
    {
      path in dirs || path in files
    }

    /** Some directory or file lies at or beneath `dir`. */
    predicate AnythingUnder(dir: string)
      reads this
    {
      (exists d :: d in dirs && Under(d, dir)) || (exists f :: f in files && Under(f, dir))
    }

    /** FileSystemUtils.deleteRecursively: the path and everything beneath it disappear. */
    method DeleteRecursively(path: string) returns (deleted: bool)
      modifies this
      ensures deleted <==> old(Exists(path))
      ensures dirs == Pruned(old(dirs), path) && files == Pruned(old(files), path)
      ensures !AnythingUnder(path)
      ensures containers == old(containers)
    {
      deleted := Exists(path);
      dirs := Pruned(dirs, path);
      files := Pruned(files, path);
    }

    /** Files.createDirectories. */
    method CreateDirectories(path: string)
      modifies this
      ensures dirs == old(dirs) + PathPrefixes(path)
      ensures files == old(files) && containers == old(containers)
    {
      dirs := dirs + PathPrefixes(path);
    }

    /** Writes the named files beneath `dir`. */
    method WriteFiles(dir: string, names: set<string>)
      modifies this
      ensures files == old(files) + (set n | n in names :: Join(dir, n))
      ensures dirs == old(dirs) && containers == old(containers)
    {
      files := files + (set n | n in names :: Join(dir, n));
    }

    /** docker rm --force: removes the named container if there is one. */
    method ForceRemove(name: string)
      modifies this
      ensures containers == old(containers) - {name}
      ensures dirs == old(dirs) && files == old(files)
    {
      containers := containers - {name};
    }

    /** docker create, and the status changes of docker start and docker pause. */
    method PutContainer(name: string, c: Container)
      modifies this
      ensures containers == old(containers)[name := c]
      ensures dirs == old(dirs) && files == old(files)
    {
      containers := containers[name := c];
    }
  }
}
