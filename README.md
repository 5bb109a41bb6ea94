# A verified model of the faas control plane

This project models, in Dafny, the control plane of a small serverless
("functions as a service") platform. It has four services:

- **Registry.** It stores users and functions, checks uploaded code for
  blocked calls, packs it into a zip artifact and hands out access keys.
- **Gateway.** It authenticates HTTP requests with JWT bearer tokens.
- **Invoker.** It runs a function. It takes an idle container from a
  per-function pool, or asks for a cold start and waits for one.
- **Provisioner.** This is a cluster of nodes. The nodes elect a leader and
  split a ring of 16384 request partitions among themselves. Each node
  listens on its partitions, starts runtime containers under Docker, and
  garbage-collects containers whose lease has run out.

The services share no memory. They coordinate only through a Redis store,
which is modelled as the class `Store.KvStore`:

- string values with an optional expiry time;
- lists, used as FIFO queues;
- sorted sets scored by expiry.

Time is a parameter in milliseconds, and every Redis call is a method on
that class. The host machine of a provisioner node is the class
`Host.Machine`: its directories, files and containers.

Java semantics are written out where they matter:

- `int` wrap-around, `Math.abs`, `%` and `/` (`Common`);
- `String.split`, `String.replace`, `isBlank` and `Long.parseLong`;
- `UUID.toString`, `UUID.fromString` and `UUID.hashCode` (`Uuids`);
- `Collectors.toMap` (`Registries`);
- `String.format("%02x", b)` of a signed byte (`Encoding`).

Modules, in the order of the system:

- `Store`, `Host`: the Redis store and the node's machine.
- `Partitioning`, `ClusterState`, `Coordination`:
  - the partition plan, proved to tile the ring with sizes that differ by at
    most one;
  - heartbeats and the leader lease;
  - the leader tick, the rebalance loop and the range sync.
- `Worker`: the worker's listener table, batches of at most 50 partitions,
  and the load-shedding rule.
- `Cleanup`: the TTL garbage collector with its owner / dead-owner / wait
  decision.
- `Docker`, `Provisioning`, `ZipSlip`:
  - container creation;
  - the package-cache state machine and the provisioning pipeline;
  - the zip-slip guard of the S3 unpacker.
- `ContainerPool`, `Invocation`, `Errors`:
  - the invoker's idle pool and request slot;
  - the invoke protocol;
  - typed errors.
- `Registries`, `CodeCheck`, `Encoding`, `RegistryDomain`, `RegistryServices`:
  - enum-keyed adapter factories;
  - the malicious-code checkers;
  - the lower-case hex encoder of the HMAC adapters;
  - the Function and User entities;
  - registration, login and access-key verification;
  - the registry's exception-to-status mapping.
- `Gateway`: the authentication filter's decision.

Collaborators that do I/O become inputs of the model:

- Docker calls, S3 and its downloads, HMAC, bcrypt, JWT parsing;
- the Java parser, the gRPC agent, the log store;
- file-watch events, the clock, random UUIDs.

Each input is a parameter that stands for one possible outcome of the
collaborator. Every property is therefore proved for all outcomes.

Some behaviour of the code is easy to miss; the model keeps it:

- **Request queues.** The invoker puts requests on
  `"func:request:queue"+slot`, with no colon and slot = |hashCode| mod 16.
  The workers listen on `"func:request:queue:"+p`. These keys never
  coincide (`ContainerPool.RequestQueueNotAPartitionQueue`).
- **Returned containers.** Returning a container to the pool does not
  refresh its GC lease. The invoker returns it as JSON with type
  information, while the provisioner publishes and the GC removes plain
  JSON, so the GC never removes a returned copy
  (`Cleanup.TypedCopiesSurvive`).
- **Function timeout.** The registration builder never sets a timeout, so
  every registered function gets the default of 300 seconds
  (`RegistryServices.RegisteredTimeoutIsDefault`).
- **Password encoder.** `UserAuthService` and `UserRegisterService` ask the
  encoder factory for the `PASSWORD` encoder, which none of the encoders
  registers. With the system's encoders they therefore always fail with
  "unsupported type: PASSWORD"
  (`RegistryServices.UserAuthNeedsPasswordEncoder`).
- **Java 21 checker.** `JAVA_21` has no registered checker, so its
  registration fails (`CodeCheck.CheckerRegistryContents`).

## Model

| member | source | states |
|---|---|---|
| ContainerPool.SlotIndex | services/invoker/src/main/java/com/hanyahunya/invoker/adapter/out/redis/ContainerRedisAdapter.java:70-72 | Math.abs(hashCode) % 16 with Java int semantics always lands in a slot 0..15 |
| ContainerPool.MinValueSlot | services/invoker/src/main/java/com/hanyahunya/invoker/adapter/out/redis/ContainerRedisAdapter.java:71 | the one hash code whose Math.abs stays negative (Integer.MIN_VALUE) still maps to slot 0 |
| ContainerPool.RequestQueueKeyInjective | services/invoker/src/main/java/com/hanyahunya/invoker/adapter/out/redis/ContainerRedisAdapter.java:42-43 | distinct slots get distinct request queues |
| ContainerPool.RequestQueueNotAPartitionQueue | services/invoker/src/main/java/com/hanyahunya/invoker/adapter/out/redis/ContainerRedisAdapter.java:27-43 | the invoker's queue "func:request:queue"+slot never equals a queue the provisioner's workers listen on ("func:request:queue:"+partition) |
| ContainerPool.RequestQueueNotIdleList | services/invoker/src/main/java/com/hanyahunya/invoker/adapter/out/redis/ContainerRedisAdapter.java:26-27 | request queues and idle lists never share a key |
| ContainerPool.Convert | services/invoker/src/main/java/com/hanyahunya/invoker/adapter/out/redis/ContainerRedisAdapter.java:85-96 | a result is produced exactly when something was popped and it has the container-info shape |
| ContainerPool.ConvertPublished | services/invoker/src/main/java/com/hanyahunya/invoker/adapter/out/redis/ContainerRedisAdapter.java:85-96 | a published container info converts back to itself, in plain or in typed JSON |
| ContainerPool.ContainerRedisAdapter.PopContainer | services/invoker/src/main/java/com/hanyahunya/invoker/adapter/out/redis/ContainerRedisAdapter.java:30-36 | takes the head of "func:idle:"+id (nothing when empty) and leaves the tail; no other key changes |
| ContainerPool.ContainerRedisAdapter.RequestContainerCreation | services/invoker/src/main/java/com/hanyahunya/invoker/adapter/out/redis/ContainerRedisAdapter.java:40-59 | appends exactly one cold-start request {functionId, s3Key} to the function's slot queue |
| ContainerPool.ContainerRedisAdapter.WaitContainer | services/invoker/src/main/java/com/hanyahunya/invoker/adapter/out/redis/ContainerRedisAdapter.java:61-68 | the blocking pop returns the first element present or arriving during the wait, nothing if none |
| ContainerPool.ContainerRedisAdapter.ReturnContainer | services/invoker/src/main/java/com/hanyahunya/invoker/adapter/out/redis/ContainerRedisAdapter.java:74-83 | appends the container, in the typed JSON of the invoker's template, at the tail of the idle list; a store failure is swallowed and changes nothing |
| ContainerPool.Drain | services/invoker/src/main/java/com/hanyahunya/invoker/adapter/out/redis/ContainerRedisAdapter.java:30-36 | successive pops yield one answer per list element |
| ContainerPool.ReturnedComesOutLast | services/invoker/src/main/java/com/hanyahunya/invoker/adapter/out/redis/ContainerRedisAdapter.java:74-83 | a returned container is served after every container already idle (FIFO reuse) |
| Errors.CodeInjective | services/invoker/src/main/java/com/hanyahunya/invoker/domain/error/FunctionErrorCode.java:12-15 | every error code is identified by its code string |
| Errors.InvokeFailureStatuses | services/invoker/src/main/java/com/hanyahunya/invoker/domain/error/FunctionErrorCode.java:13-15 | permission denial is 403 "F-002" and container start timeout is 503 "F-004" |
| Errors.PairsToMapKeys | services/invoker/src/main/java/com/hanyahunya/invoker/common/exception/PermissionDeniedException.java:42-44 | the payload's keys are exactly String.valueOf of the even-position arguments |
| Errors.PairsToMapLastWins | services/invoker/src/main/java/com/hanyahunya/invoker/common/exception/PermissionDeniedException.java:42-44 | each key maps to the value after it unless a later pair repeats the key |
| Errors.PermissionDeniedException.constructor | services/invoker/src/main/java/com/hanyahunya/invoker/common/exception/PermissionDeniedException.java:14-17 | keeps the error code and its message, with an empty payload |
| Errors.PermissionDeniedException.WithMap | services/invoker/src/main/java/com/hanyahunya/invoker/common/exception/PermissionDeniedException.java:19-25 | copies every entry of the given map; a null map leaves the payload empty |
| Errors.PermissionDeniedException.Put | services/invoker/src/main/java/com/hanyahunya/invoker/common/exception/PermissionDeniedException.java:43 | HashMap.put: the one key is (re)bound, nothing else changes |
| Errors.WithKeyValues | services/invoker/src/main/java/com/hanyahunya/invoker/common/exception/PermissionDeniedException.java:35-45 | fails with "Key-Value pairs must be even." exactly for an odd argument count; otherwise the payload is the pairs' map |
| Invocation.Head | services/invoker/src/main/java/com/hanyahunya/invoker/application/service/InvokeService.java:55 | a pop yields a container exactly when the list's head is one, and then it is that head's container |
| Invocation.Rest | services/invoker/src/main/java/com/hanyahunya/invoker/application/service/InvokeService.java:55 | a pop removes exactly the head |
| Invocation.AcquireTakesFromPool | services/invoker/src/main/java/com/hanyahunya/invoker/application/service/InvokeService.java:50-80 | the container used is the container of an element of the idle list or of one that arrived during the wait; the start is warm exactly when the idle list's head is a container, and then it is that head; a cold start leaves a suffix of the list at most two shorter |
| Invocation.WarmSuccessRotatesPool | services/invoker/src/main/java/com/hanyahunya/invoker/application/service/InvokeService.java:55-116 | a successful warm run moves the used container to the tail, in typed JSON; when the head already was typed the pool is the same multiset |
| Invocation.PublishedContainerServesNextInvocation | services/invoker/src/main/java/com/hanyahunya/invoker/application/service/InvokeService.java:62-116 | a container published (plain JSON) during a cold start serves that call and, once returned (typed JSON), the next call warm |
| Invocation.InvokeService.constructor | services/invoker/src/main/java/com/hanyahunya/invoker/application/service/InvokeService.java:26-29 | wires the pool and starts with no logs |
| Invocation.InvokeService.Invoke | services/invoker/src/main/java/com/hanyahunya/invoker/application/service/InvokeService.java:31-121 | denied access touches nothing; at most one creation request, only on a cold start; no container gives CONTAINER_INIT_TIMEOUT; otherwise the agent's result or "Function execution failed: "+message, the container returned only on success, one log row (cold-start time 0 when warm) unless saving fails |
| Invocation.InvokeService.AcquireContainer | services/invoker/src/main/java/com/hanyahunya/invoker/application/service/InvokeService.java:50-80 | the container, kind and idle list are those of Acquire; the request queue grows only on a cold start |
| Invocation.InvokeService.ReturnAfterSuccess | services/invoker/src/main/java/com/hanyahunya/invoker/application/service/InvokeService.java:114-116 | the container goes to the tail of the idle list unless the store fails; the request queue is untouched |
| Worker.QueueKeyInjective | services/provisioner/src/main/java/com/hanyahunya/provisioner/adapter/in/redis/RedisWorkerAdapter.java:92-140 | distinct partitions have distinct request queues "func:request:queue:"+p |
| Worker.RangeClosed | services/provisioner/src/main/java/com/hanyahunya/provisioner/adapter/in/redis/RedisWorkerAdapter.java:59 | IntStream.rangeClosed(start, end): the consecutive integers from start to end, empty when end < start |
| Worker.BatchesCount | services/provisioner/src/main/java/com/hanyahunya/provisioner/adapter/in/redis/RedisWorkerAdapter.java:60-69 | the range is cut into ceil(size / 50) listener batches |
| Worker.BatchesSlice | services/provisioner/src/main/java/com/hanyahunya/provisioner/adapter/in/redis/RedisWorkerAdapter.java:62-64 | batch j is exactly the sub-list [50j, min(50j + 50, size)) |
| Worker.BatchSizes | services/provisioner/src/main/java/com/hanyahunya/provisioner/adapter/in/redis/RedisWorkerAdapter.java:60-64 | every batch holds between 1 and 50 partitions |
| Worker.BatchesAppend | services/provisioner/src/main/java/com/hanyahunya/provisioner/adapter/in/redis/RedisWorkerAdapter.java:62-64 | batching a list whose length is a multiple of 50 followed by more is batching each part |
| Worker.BatchOfPartition | services/provisioner/src/main/java/com/hanyahunya/provisioner/adapter/in/redis/RedisWorkerAdapter.java:59-64 | partition p is in batch j exactly when start <= p <= end and j == (p - start) / 50: each partition is watched by exactly one listener |
| Worker.Decide | services/provisioner/src/main/java/com/hanyahunya/provisioner/adapter/in/redis/RedisWorkerAdapter.java:123-166 | a message is forwarded only when the node is not solo and the container count is at least 50; it is provisioned only when it parses as a cold-start request, with that request's function id and S3 key |
| Worker.SoloNeverForwards | services/provisioner/src/main/java/com/hanyahunya/provisioner/adapter/in/redis/RedisWorkerAdapter.java:130-134 | a node owning the whole ring [0, 16383] never sheds load |
| Worker.BelowLimitProvisions | services/provisioner/src/main/java/com/hanyahunya/provisioner/adapter/in/redis/RedisWorkerAdapter.java:138-161 | below 50 containers a well-formed cold-start request is provisioned locally |
| Worker.PlanNotSolo | services/provisioner/src/main/java/com/hanyahunya/provisioner/adapter/in/redis/RedisWorkerAdapter.java:130-131 | with two or more nodes in the leader's plan no node is solo |
| Worker.NextStart | services/provisioner/src/main/java/com/hanyahunya/provisioner/adapter/in/redis/RedisWorkerAdapter.java:139 | (end + 1) mod 16384 is the first partition of the next node's (non-empty) range |
| Worker.ForwardGoesToSuccessor | services/provisioner/src/main/java/com/hanyahunya/provisioner/adapter/in/redis/RedisWorkerAdapter.java:134-148 | under overload a node of an n-node plan forwards to the queue of the first partition of the next node in the ring |
| Worker.WorkerAdapter.constructor | services/provisioner/src/main/java/com/hanyahunya/provisioner/adapter/in/redis/RedisWorkerAdapter.java:34-39 | starts stopped, without listeners |
| Worker.WorkerAdapter.StopAllWorkers | services/provisioner/src/main/java/com/hanyahunya/provisioner/adapter/in/redis/RedisWorkerAdapter.java:74-88 | cancels every active listener and forgets the range |
| Worker.WorkerAdapter.SyncWorkers | services/provisioner/src/main/java/com/hanyahunya/provisioner/adapter/in/redis/RedisWorkerAdapter.java:46-72 | the same range while running changes nothing (no task submitted or cancelled); otherwise all old listeners are cancelled and one listener per batch of the new range is submitted |
| Worker.WorkerAdapter.ProcessMessage | services/provisioner/src/main/java/com/hanyahunya/provisioner/adapter/in/redis/RedisWorkerAdapter.java:123-166 | the dispatch is Decide's; a forward appends the message verbatim to the target queue, anything else leaves the lists unchanged |
| Worker.WatchedKeysOfRange | services/provisioner/src/main/java/com/hanyahunya/provisioner/adapter/in/redis/RedisWorkerAdapter.java:59-92 | a running worker watches the queue of partition p exactly when p lies in its range |
| ClusterState.HeartbeatKeyRoundTrip | services/provisioner/src/main/java/com/hanyahunya/provisioner/adapter/out/redis/RedisClusterStateAdapter.java:31-39 | replacing the prefix in "prov:node:"+id gives back id when the id has no ':' |
| ClusterState.RemoveAllMissing | services/provisioner/src/main/java/com/hanyahunya/provisioner/adapter/out/redis/RedisClusterStateAdapter.java:39 | String.replace of a target containing a character the string lacks changes nothing |
| ClusterState.KeySpacesDisjoint | services/provisioner/src/main/java/com/hanyahunya/provisioner/adapter/out/redis/RedisClusterStateAdapter.java:21-23 | heartbeat keys, the leader key and assignment keys never collide |
| ClusterState.AssignKeyInjective | services/provisioner/src/main/java/com/hanyahunya/provisioner/adapter/out/redis/RedisClusterStateAdapter.java:23-67 | distinct nodes have distinct assignment keys |
| ClusterState.ActiveNodesExact | services/provisioner/src/main/java/com/hanyahunya/provisioner/adapter/out/redis/RedisClusterStateAdapter.java:34-41 | with well-formed heartbeat keys, a node is active exactly when its own heartbeat key holds a live value |
| ClusterState.HeartbeatLiveness | services/provisioner/src/main/java/com/hanyahunya/provisioner/adapter/out/redis/RedisClusterStateAdapter.java:29-32 | a heartbeat at time t keeps the node active until t + 5000 ms and no longer |
| ClusterState.AssignmentKeepsActiveNodes | services/provisioner/src/main/java/com/hanyahunya/provisioner/adapter/out/redis/RedisClusterStateAdapter.java:64-68 | writing an assignment does not change the set of active nodes |
| ClusterState.AssignmentRoundTrip | services/provisioner/src/main/java/com/hanyahunya/provisioner/adapter/out/redis/RedisClusterStateAdapter.java:64-77 | a saved range reads back unchanged; other nodes' assignments are untouched |
| ClusterState.ClusterStateAdapter.constructor | services/provisioner/src/main/java/com/hanyahunya/provisioner/adapter/out/redis/RedisClusterStateAdapter.java:18-19 | wires the adapter to the shared store |
| ClusterState.ClusterStateAdapter.SendHeartbeat | services/provisioner/src/main/java/com/hanyahunya/provisioner/adapter/out/redis/RedisClusterStateAdapter.java:29-32 | sets "prov:node:"+id to "alive" with a 5-second expiry; nothing else changes |
| ClusterState.ClusterStateAdapter.TryAcquireLeadership | services/provisioner/src/main/java/com/hanyahunya/provisioner/adapter/out/redis/RedisClusterStateAdapter.java:43-48 | succeeds exactly when no live lease exists, and then the lease names this node for 10 seconds |
| ClusterState.ClusterStateAdapter.ExtendLeadership | services/provisioner/src/main/java/com/hanyahunya/provisioner/adapter/out/redis/RedisClusterStateAdapter.java:50-56 | renews the lease for 10 seconds only if it names this node; otherwise nothing changes |
| ClusterState.ClusterStateAdapter.SaveAssignmentRange | services/provisioner/src/main/java/com/hanyahunya/provisioner/adapter/out/redis/RedisClusterStateAdapter.java:64-68 | stores the range under "prov:assign:"+id without expiry; nothing else changes |
| Partitioning.SizeOf | services/provisioner/src/main/java/com/hanyahunya/provisioner/application/system/ClusterCoordinationService.java:65-71 | node i gets 16384 / n or one more partition, one more exactly when i < 16384 % n |
| Partitioning.StartOfClosedForm | services/provisioner/src/main/java/com/hanyahunya/provisioner/application/system/ClusterCoordinationService.java:67-75 | node i's range starts at i * (16384 / n) + min(i, 16384 % n) |
| Partitioning.PlanCoversAll | services/provisioner/src/main/java/com/hanyahunya/provisioner/application/system/ClusterCoordinationService.java:69-76 | the n ranges end exactly at partition 16383 |
| Partitioning.StartOfMonotone | services/provisioner/src/main/java/com/hanyahunya/provisioner/application/system/ClusterCoordinationService.java:72-75 | range starts never decrease along the sorted order |
| Partitioning.RangesDisjoint | services/provisioner/src/main/java/com/hanyahunya/provisioner/application/system/ClusterCoordinationService.java:69-76 | an earlier node's range ends before a later node's starts |
| Partitioning.OwnerExists | services/provisioner/src/main/java/com/hanyahunya/provisioner/application/system/ClusterCoordinationService.java:69-76 | every partition below 16384 lies in some node's range |
| Partitioning.UniqueOwner | services/provisioner/src/main/java/com/hanyahunya/provisioner/application/system/ClusterCoordinationService.java:58-77 | every partition has exactly one owner among the n nodes |
| Partitioning.RangeNonEmpty | services/provisioner/src/main/java/com/hanyahunya/provisioner/application/system/ClusterCoordinationService.java:65-72 | a node's range is non-empty exactly when n <= 16384 or the node is among the first 16384 |
| Partitioning.RangeWithinRing | services/provisioner/src/main/java/com/hanyahunya/provisioner/application/system/ClusterCoordinationService.java:67-75 | every planned range lies within [0, 16383] |
| Partitioning.StrLessIrreflexive | services/provisioner/src/main/java/com/hanyahunya/provisioner/application/system/ClusterCoordinationService.java:60 | String.compareTo order: no string precedes itself |
| Partitioning.StrLessTransitive | services/provisioner/src/main/java/com/hanyahunya/provisioner/application/system/ClusterCoordinationService.java:60 | String.compareTo order is transitive |
| Partitioning.StrLessTotal | services/provisioner/src/main/java/com/hanyahunya/provisioner/application/system/ClusterCoordinationService.java:60 | String.compareTo order is total on distinct strings |
| Partitioning.StrLessAsymmetric | services/provisioner/src/main/java/com/hanyahunya/provisioner/application/system/ClusterCoordinationService.java:60 | String.compareTo order is asymmetric |
| Partitioning.MinimalExists | services/provisioner/src/main/java/com/hanyahunya/provisioner/application/system/ClusterCoordinationService.java:60 | a non-empty set of identifiers has a least element |
| Partitioning.MinimalUnique | services/provisioner/src/main/java/com/hanyahunya/provisioner/application/system/ClusterCoordinationService.java:60 | the least element is unique |
| Partitioning.Smallest | services/provisioner/src/main/java/com/hanyahunya/provisioner/application/system/ClusterCoordinationService.java:60 | returns the least identifier of the set |
| Partitioning.SortedNodes | services/provisioner/src/main/java/com/hanyahunya/provisioner/application/system/ClusterCoordinationService.java:59-60 | new ArrayList(nodes) then Collections.sort: strictly increasing, same elements, same count |
| Partitioning.SortedUnique | services/provisioner/src/main/java/com/hanyahunya/provisioner/application/system/ClusterCoordinationService.java:59-60 | the sorted list does not depend on the set's iteration order |
| Coordination.PlanRange | services/provisioner/src/main/java/com/hanyahunya/provisioner/application/system/ClusterCoordinationService.java:69-74 | the i-th stored range is [StartOf(n, i), EndOf(n, i)] |
| Coordination.PlanRangeValid | services/provisioner/src/main/java/com/hanyahunya/provisioner/application/system/ClusterCoordinationService.java:83 | a planned range passes Range.isValid exactly when it is non-empty |
| Coordination.TwoNodePlan | services/provisioner/src/main/java/com/hanyahunya/provisioner/application/system/ClusterCoordinationService.java:65-75 | two nodes split the ring into [0, 8191] and [8192, 16383] |
| Coordination.SortedDistinct | services/provisioner/src/main/java/com/hanyahunya/provisioner/application/system/ClusterCoordinationService.java:59-60 | sorted node identifiers are pairwise distinct |
| Coordination.PlannedReads | services/provisioner/src/main/java/com/hanyahunya/provisioner/application/system/ClusterCoordinationService.java:69-76 | after i loop iterations the first i nodes read back their planned ranges, other nodes read what they had, and the active set is unchanged |
| Coordination.LeaseKeepsActiveNodes | services/provisioner/src/main/java/com/hanyahunya/provisioner/adapter/out/redis/RedisClusterStateAdapter.java:21-47 | writing the lease does not change the set of active nodes |
| Coordination.PlannedKeepsLease | services/provisioner/src/main/java/com/hanyahunya/provisioner/application/system/ClusterCoordinationService.java:69-76 | the rebalance loop never touches the leader key |
| Coordination.RebalancedReads | services/provisioner/src/main/java/com/hanyahunya/provisioner/application/system/ClusterCoordinationService.java:58-77 | after a rebalance each active node reads the range of its sorted position; an inactive node keeps its old assignment |
| Coordination.AssignedIsPlanned | services/provisioner/src/main/java/com/hanyahunya/provisioner/application/system/ClusterCoordinationService.java:58-77 | every active node reads back exactly the range at its position in the sorted order |
| Coordination.RebalanceCoversRingOnce | services/provisioner/src/main/java/com/hanyahunya/provisioner/application/system/ClusterCoordinationService.java:58-77 | after a rebalance every partition is held by exactly one active node |
| Coordination.SoleHolder | services/provisioner/src/main/java/com/hanyahunya/provisioner/application/system/ClusterCoordinationService.java:58-77 | two active nodes holding the same partition after a rebalance are the same node |
| Coordination.NodeIdColonFree | services/provisioner/src/main/java/com/hanyahunya/provisioner/application/system/ClusterCoordinationService.java:26 | a node identifier (a UUID string) contains no ':' |
| Coordination.RebalanceKeepsLease | services/provisioner/src/main/java/com/hanyahunya/provisioner/application/system/ClusterCoordinationService.java:53-54 | a rebalance leaves the freshly written lease in place |
| Coordination.CoordinationService.constructor | services/provisioner/src/main/java/com/hanyahunya/provisioner/application/system/ClusterCoordinationService.java:23-26 | the node id is the string of a fresh UUID |
| Coordination.CoordinationService.Heartbeat | services/provisioner/src/main/java/com/hanyahunya/provisioner/application/system/ClusterCoordinationService.java:35-38 | sets this node's heartbeat key for 5 seconds |
| Coordination.CoordinationService.RebalancePartitions | services/provisioner/src/main/java/com/hanyahunya/provisioner/application/system/ClusterCoordinationService.java:58-77 | the new store is Rebalanced(old store): nothing when no node is active, else one saved range per sorted node |
| Coordination.CoordinationService.LeaderTask | services/provisioner/src/main/java/com/hanyahunya/provisioner/application/system/ClusterCoordinationService.java:40-56 | rebalances exactly when this node held or just acquired the lease, and then holds it afterwards; otherwise nothing changes |
| Coordination.CoordinationService.SyncWorkers | services/provisioner/src/main/java/com/hanyahunya/provisioner/application/system/ClusterCoordinationService.java:79-89 | a valid assignment starts the workers on exactly that range; a missing or invalid one stops them |
| Cleanup.ParseMember | services/provisioner/src/main/java/com/hanyahunya/provisioner/application/system/ResourceCleanupService.java:74-78 | a member yields its three fields exactly when split(":") gives at least three parts (fewer is the index error that skips it) |
| Cleanup.SplitTwo | services/provisioner/src/main/java/com/hanyahunya/provisioner/application/system/ResourceCleanupService.java:74 | String.split(":") separates two colon-free fields |
| Cleanup.SplitThree | services/provisioner/src/main/java/com/hanyahunya/provisioner/application/system/ResourceCleanupService.java:74 | String.split(":") gives back the three colon-free fields of a member whose last field is non-empty |
| Cleanup.MemberRoundTrip | services/provisioner/src/main/java/com/hanyahunya/provisioner/application/system/ResourceCleanupService.java:49-123 | a member registered for a colon-free, non-empty host address parses back to its three fields, and the idle entry rebuilt from them is the published ContainerInfo |
| Cleanup.EmptyAddressUnparsable | services/provisioner/src/main/java/com/hanyahunya/provisioner/application/system/ResourceCleanupService.java:74-78 | a member registered with an empty address has only two parts and is skipped |
| Cleanup.ActionFor | services/provisioner/src/main/java/com/hanyahunya/provisioner/application/system/ResourceCleanupService.java:87-106 | the owner deletes; another host forgets the member only when it is more than three minutes past expiry, and otherwise waits |
| Cleanup.GoneEntriesStep | services/provisioner/src/main/java/com/hanyahunya/provisioner/application/system/ResourceCleanupService.java:114-134 | handling one more member removes its rebuilt idle entry from its function's list |
| Cleanup.ForgottenStep | services/provisioner/src/main/java/com/hanyahunya/provisioner/application/system/ResourceCleanupService.java:93-106 | handling one more member removes it from the sorted set unless the sweep waits for its owner |
| Cleanup.RemovedContainersStep | services/provisioner/src/main/java/com/hanyahunya/provisioner/application/system/ResourceCleanupService.java:93-143 | handling one more owned member removes its container |
| Cleanup.RemovedDirsStep | services/provisioner/src/main/java/com/hanyahunya/provisioner/application/system/ResourceCleanupService.java:93-150 | handling one more owned member deletes its instance directory |
| Cleanup.WithoutAbsent | services/provisioner/src/main/java/com/hanyahunya/provisioner/application/system/ResourceCleanupService.java:126 | removing elements that do not occur changes nothing (LREM is idempotent) |
| Cleanup.SweepIdempotent | services/provisioner/src/main/java/com/hanyahunya/provisioner/application/system/ResourceCleanupService.java:59-112 | a second sweep at the same instant removes nothing more from the sorted set, the machine or the idle lists |
| Cleanup.RegistrationExpiry | services/provisioner/src/main/java/com/hanyahunya/provisioner/application/system/ResourceCleanupService.java:53-64 | a registration is swept exactly when its fifteen minutes have passed |
| Cleanup.NothingExpired | services/provisioner/src/main/java/com/hanyahunya/provisioner/application/system/ResourceCleanupService.java:64-65 | a sweep that finds no expired member changes nothing |
| Cleanup.ListsStep | services/provisioner/src/main/java/com/hanyahunya/provisioner/application/system/ResourceCleanupService.java:71-82 | loop step: the idle lists are the originals minus every handled member's entry |
| Cleanup.ZsetStep | services/provisioner/src/main/java/com/hanyahunya/provisioner/application/system/ResourceCleanupService.java:71-106 | loop step: the sorted set is the original minus every forgotten member, and each member's action is decided on its original score |
| Cleanup.MachineStep | services/provisioner/src/main/java/com/hanyahunya/provisioner/application/system/ResourceCleanupService.java:93-151 | loop step: the machine has lost exactly the owned handled members' containers and directories |
| Cleanup.ResourceCleanupService.constructor | services/provisioner/src/main/java/com/hanyahunya/provisioner/application/system/ResourceCleanupService.java:26-31 | wires the store, the machine and the workspace path |
| Cleanup.ResourceCleanupService.RegisterContainer | services/provisioner/src/main/java/com/hanyahunya/provisioner/application/system/ResourceCleanupService.java:49-57 | adds "functionId:instanceId:agentIp" with score now + 15 minutes; nothing else changes |
| Cleanup.ResourceCleanupService.HandleMember | services/provisioner/src/main/java/com/hanyahunya/provisioner/application/system/ResourceCleanupService.java:72-110 | one member: its plain-JSON idle entry removed everywhere it occurs, other entries kept; the sorted set, containers and directories changed exactly as its action says; an unparsable member changes nothing else |
| Cleanup.ResourceCleanupService.CleanupExpiredContainers | services/provisioner/src/main/java/com/hanyahunya/provisioner/application/system/ResourceCleanupService.java:59-112 | the whole sweep: the idle lists lose every expired member's plain-JSON entry and nothing else, the sorted set loses the forgotten members, the machine loses the owned members' containers and instance directories |
| Cleanup.TypedCopiesSurvive | services/provisioner/src/main/java/com/hanyahunya/provisioner/application/system/ResourceCleanupService.java:122-126 | the GC's removal never touches a typed-JSON copy that the invoker returned: its count in the list is unchanged |
| Store.Lookup | services/provisioner/src/main/java/com/hanyahunya/provisioner/adapter/out/redis/RedisClusterStateAdapter.java:52-60 | GET: a value is returned exactly when the key holds a live (unexpired) entry, and it is that entry's value |
| Store.RemoveEvery | services/provisioner/src/main/java/com/hanyahunya/provisioner/application/system/ResourceCleanupService.java:126 | LREM key 0 x: every x is removed, the other elements stay with their multiplicities |
| Store.RemoveEveryAbsent | services/provisioner/src/main/java/com/hanyahunya/provisioner/application/system/ResourceCleanupService.java:126 | LREM of an absent value changes nothing |
| Store.Without | services/provisioner/src/main/java/com/hanyahunya/provisioner/application/system/ResourceCleanupService.java:126 | LREM 0 for each removed value: no removed value is left, and every other value keeps its exact count |
| Store.WithoutAppend | services/provisioner/src/main/java/com/hanyahunya/provisioner/application/system/ResourceCleanupService.java:126 | removal works element by element, so it distributes over concatenation and keeps the order of what is left |
| Store.RemoveEveryWithout | services/provisioner/src/main/java/com/hanyahunya/provisioner/application/system/ResourceCleanupService.java:126 | successive LREMs amount to removing the union |
| Store.WithoutNothing | services/provisioner/src/main/java/com/hanyahunya/provisioner/application/system/ResourceCleanupService.java:126 | removing nothing changes nothing |
| Store.KvStore.constructor | services/provisioner/src/main/java/com/hanyahunya/provisioner/adapter/out/redis/RedisClusterStateAdapter.java:18-19 | the store starts empty |
| Store.KvStore.Set | services/provisioner/src/main/java/com/hanyahunya/provisioner/adapter/out/redis/RedisClusterStateAdapter.java:67 | SET without expiry replaces exactly one value |
| Store.KvStore.SetWithTtl | services/provisioner/src/main/java/com/hanyahunya/provisioner/adapter/out/redis/RedisClusterStateAdapter.java:31 | SET with a time-to-live replaces exactly one value, expiring at now + ttl |
| Store.KvStore.SetIfAbsent | services/provisioner/src/main/java/com/hanyahunya/provisioner/adapter/out/redis/RedisClusterStateAdapter.java:45-46 | SET NX succeeds exactly when no live value is stored, and then stores it with its expiry |
| Store.KvStore.Expire | services/provisioner/src/main/java/com/hanyahunya/provisioner/adapter/out/redis/RedisClusterStateAdapter.java:54 | EXPIRE renews a live key's expiry and does nothing to an absent one |
| Store.KvStore.RightPush | services/invoker/src/main/java/com/hanyahunya/invoker/adapter/out/redis/ContainerRedisAdapter.java:51-78 | RPUSH appends one element at the tail |
| Store.KvStore.LeftPop | services/invoker/src/main/java/com/hanyahunya/invoker/adapter/out/redis/ContainerRedisAdapter.java:33 | LPOP takes the head of a non-empty list; an empty list yields nothing and is unchanged |
| Store.KvStore.AwaitLeftPop | services/invoker/src/main/java/com/hanyahunya/invoker/adapter/out/redis/ContainerRedisAdapter.java:65 | the blocking LPOP takes the first element present or arriving; nothing when none |
| Store.KvStore.ListRemove | services/provisioner/src/main/java/com/hanyahunya/provisioner/application/system/ResourceCleanupService.java:126 | LREM removes every equal element and reports how many |
| Store.KvStore.ZAdd | services/provisioner/src/main/java/com/hanyahunya/provisioner/application/system/ResourceCleanupService.java:54 | ZADD sets exactly one member's score |
| Store.KvStore.ZRemove | services/provisioner/src/main/java/com/hanyahunya/provisioner/application/system/ResourceCleanupService.java:96-101 | ZREM removes exactly one member |
| Docker.ImageForInjective | services/provisioner/src/main/java/com/hanyahunya/provisioner/adapter/out/docker/DockerAdapter.java:154-163 | each runtime has its own image |
| Docker.ContainerNameInjective | services/provisioner/src/main/java/com/hanyahunya/provisioner/adapter/out/docker/DockerAdapter.java:34-63 | distinct instances have distinct container names "ins-"+id |
| Docker.BuildEnvList | services/provisioner/src/main/java/com/hanyahunya/provisioner/adapter/out/docker/DockerAdapter.java:74-78 | one "k=v" entry per configured variable, in order, then SOCK_PATH=/var/run/function.sock last; a null map gives only SOCK_PATH |
| Docker.PollResultEvidence | services/provisioner/src/main/java/com/hanyahunya/provisioner/adapter/out/docker/DockerAdapter.java:105-146 | the wait reports success only on evidence: a creation event for function.sock before any timeout, or the file existing at the final check |
| Docker.TimeoutBeforeEvents | services/provisioner/src/main/java/com/hanyahunya/provisioner/adapter/out/docker/DockerAdapter.java:123-125 | a poll that times out fails the wait at once, even if the socket appears later |
| Docker.WaitForSocketFile | services/provisioner/src/main/java/com/hanyahunya/provisioner/adapter/out/docker/DockerAdapter.java:105-146 | the loop's result is SocketReady of the watch history |
| Docker.CreateAndStartContainer | services/provisioner/src/main/java/com/hanyahunya/provisioner/adapter/out/docker/DockerAdapter.java:31-103 | succeeds exactly when create and start succeed and the socket appears, and then the named container has the runtime's image, exactly one "k=v" per configured variable in order followed by SOCK_PATH, the two binds and the 256 MiB / half-CPU limits, paused unless pausing failed; a socket failure removes the container; a start failure leaves it created |
| Docker.RemoveContainer | services/provisioner/src/main/java/com/hanyahunya/provisioner/adapter/out/docker/DockerAdapter.java:148-152 | the port's removeContainer, done as the adapter's forced removal of "ins-"+id: that container goes and nothing else changes |
| Host.JoinUnder | services/provisioner/src/main/java/com/hanyahunya/provisioner/application/service/ContainerService.java:56-58 | a resolved child path lies beneath its directory |
| Host.PathPrefixes | services/provisioner/src/main/java/com/hanyahunya/provisioner/application/service/ContainerService.java:77-177 | Files.createDirectories creates the path and directories above it |
| Host.Pruned | services/provisioner/src/main/java/com/hanyahunya/provisioner/application/service/ContainerService.java:172-190 | deleting recursively removes exactly the paths at or beneath the directory |
| Host.PrunedAll | services/provisioner/src/main/java/com/hanyahunya/provisioner/application/system/ResourceCleanupService.java:147 | deleting several directories removes exactly the paths beneath any of them |
| Host.PrunedStep | services/provisioner/src/main/java/com/hanyahunya/provisioner/application/system/ResourceCleanupService.java:71-111 | deletions compose, in any order |
| Host.PrunedNone | services/provisioner/src/main/java/com/hanyahunya/provisioner/application/system/ResourceCleanupService.java:71-111 | deleting nothing removes nothing |
| Host.PrunedIdempotent | services/provisioner/src/main/java/com/hanyahunya/provisioner/application/system/ResourceCleanupService.java:147 | deleting a directory twice is deleting it once |
| Host.Machine.constructor | services/provisioner/src/main/java/com/hanyahunya/provisioner/application/service/ContainerService.java:36-37 | a host with the given directories and files and no containers |
| Host.Machine.DeleteRecursively | services/provisioner/src/main/java/com/hanyahunya/provisioner/application/service/ContainerService.java:172 | reports whether the path existed; afterwards nothing lies at or beneath it; containers untouched |
| Host.Machine.CreateDirectories | services/provisioner/src/main/java/com/hanyahunya/provisioner/application/service/ContainerService.java:77-177 | adds the path and its ancestors; files and containers untouched |
| Host.Machine.WriteFiles | services/provisioner/src/main/java/com/hanyahunya/provisioner/adapter/out/aws/S3Adapter.java:71-76 | adds exactly the named files beneath the directory |
| Host.Machine.ForceRemove | services/provisioner/src/main/java/com/hanyahunya/provisioner/adapter/out/docker/DockerAdapter.java:148-152 | removes exactly the named container, if present |
| Host.Machine.PutContainer | services/provisioner/src/main/java/com/hanyahunya/provisioner/adapter/out/docker/DockerAdapter.java:90-97 | creates or updates exactly the named container |
| Provisioning.SocketPathLayout | services/provisioner/src/main/java/com/hanyahunya/provisioner/application/service/ContainerService.java:57-98 | the socket the container creates is the workspace joined with the published relative path, inside the instance directory |
| Provisioning.PackagesOutsideInstances | services/provisioner/src/main/java/com/hanyahunya/provisioner/application/service/ContainerService.java:56-57 | nothing in a package directory lies in an instance directory, so the collector never deletes a package |
| Provisioning.JoinInjective | services/provisioner/src/main/java/com/hanyahunya/provisioner/application/service/ContainerService.java:56-58 | resolving different names in one directory gives different paths |
| Provisioning.ContainerResultAdapter.constructor | services/provisioner/src/main/java/com/hanyahunya/provisioner/adapter/out/redis/RedisContainerResultAdapter.java:18-19 | wires the adapter to the shared store |
| Provisioning.ContainerResultAdapter.SendContainerInfo | services/provisioner/src/main/java/com/hanyahunya/provisioner/adapter/out/redis/RedisContainerResultAdapter.java:23-36 | on success appends the container info at the tail of "func:idle:"+id; a failed push (rethrown) changes nothing |
| Provisioning.PrepareFunctionCode | services/provisioner/src/main/java/com/hanyahunya/provisioner/application/service/ContainerService.java:162-194 | a package without config.json is deleted first; the download happens exactly when no complete package exists; success means config.json exists, failure leaves nothing under the package directory; nothing outside it changes except the created ancestors |
| Provisioning.ContainerService.constructor | services/provisioner/src/main/java/com/hanyahunya/provisioner/application/service/ContainerService.java:28-37 | wires the collaborators to one store, host and workspace |
| Provisioning.ContainerService.PreparePackage | services/provisioner/src/main/java/com/hanyahunya/provisioner/application/service/ContainerService.java:62-75 | succeeds only with a readable config.json; with a complete package or a good archive, succeeds exactly when the config parses |
| Provisioning.ContainerService.StartInstance | services/provisioner/src/main/java/com/hanyahunya/provisioner/application/service/ContainerService.java:77-86 | the socket directory exists afterwards; succeeds exactly when Docker does, and then the container has the config's runtime image and environment, the package and socket binds and the limits; no other container changes |
| Provisioning.ContainerService.Publish | services/provisioner/src/main/java/com/hanyahunya/provisioner/application/service/ContainerService.java:93-101 | registers "fid:iid:hostIp" for GC at now + 15 min, then appends the ContainerInfo with the relative socket path to the idle list (unless the push fails) |
| Provisioning.ContainerService.Discard | services/provisioner/src/main/java/com/hanyahunya/provisioner/application/service/ContainerService.java:104-110 | the failure path: the instance's container is gone and nothing remains under its directory |
| Provisioning.ContainerService.CreateAndRunContainer | services/provisioner/src/main/java/com/hanyahunya/provisioner/application/service/ContainerService.java:51-111 | published only when the package, config, container and push all succeeded, and then the idle list grows by exactly that container and the GC set holds its member; otherwise no idle entry, no container and no instance directory remain |
| Provisioning.HandleRequest | services/provisioner/src/main/java/com/hanyahunya/provisioner/adapter/in/redis/RedisWorkerAdapter.java:123-166 | a worker's message end to end: the dispatch is Decide's; a forward only re-queues; a provision publishes at most one container of that function; a dropped message changes no list |
| ZipSlip.Step | services/provisioner/src/main/java/com/hanyahunya/provisioner/adapter/out/aws/S3Adapter.java:84-92 | applying a path segment keeps the chain canonical |
| ZipSlip.ResolvePlain | services/provisioner/src/main/java/com/hanyahunya/provisioner/adapter/out/aws/S3Adapter.java:86-87 | canonicalising keeps only plain segments |
| ZipSlip.ResolveAppend | services/provisioner/src/main/java/com/hanyahunya/provisioner/adapter/out/aws/S3Adapter.java:85-87 | segments can be applied in two parts |
| ZipSlip.SegmentsOfJoin | services/provisioner/src/main/java/com/hanyahunya/provisioner/adapter/out/aws/S3Adapter.java:85 | new File(dir, name) joins the segment lists |
| ZipSlip.Canonical | services/provisioner/src/main/java/com/hanyahunya/provisioner/adapter/out/aws/S3Adapter.java:86-87 | getCanonicalPath yields a chain without ".", ".." or empty segments |
| ZipSlip.NewFile | services/provisioner/src/main/java/com/hanyahunya/provisioner/adapter/out/aws/S3Adapter.java:84-93 | returns the entry's file, or fails with "Entry is outside of the target dir: "+name |
| ZipSlip.RenderAppend | services/provisioner/src/main/java/com/hanyahunya/provisioner/adapter/out/aws/S3Adapter.java:89 | rendering chains concatenates |
| ZipSlip.RenderStartsWithSlash | services/provisioner/src/main/java/com/hanyahunya/provisioner/adapter/out/aws/S3Adapter.java:89 | a rendered path starts with "/" |
| ZipSlip.SameFirstSegment | services/provisioner/src/main/java/com/hanyahunya/provisioner/adapter/out/aws/S3Adapter.java:89 | prefix comparison of rendered paths agrees segment by segment |
| ZipSlip.RenderPrefix | services/provisioner/src/main/java/com/hanyahunya/provisioner/adapter/out/aws/S3Adapter.java:89 | a rendered chain plus "/" prefixes another only if the chain is a proper prefix of the other |
| ZipSlip.RenderNoDoubleSlash | services/provisioner/src/main/java/com/hanyahunya/provisioner/adapter/out/aws/S3Adapter.java:89 | a canonical path never starts with "//" |
| ZipSlip.EntryChain | services/provisioner/src/main/java/com/hanyahunya/provisioner/adapter/out/aws/S3Adapter.java:85-87 | the entry's chain is the destination's chain with the name's segments applied |
| ZipSlip.InsideSound | services/provisioner/src/main/java/com/hanyahunya/provisioner/adapter/out/aws/S3Adapter.java:89 | every entry that passes the guard lies strictly below the destination |
| ZipSlip.InsideComplete | services/provisioner/src/main/java/com/hanyahunya/provisioner/adapter/out/aws/S3Adapter.java:89 | every entry strictly below a destination other than "/" passes the guard |
| ZipSlip.InsideIff | services/provisioner/src/main/java/com/hanyahunya/provisioner/adapter/out/aws/S3Adapter.java:84-93 | the guard holds exactly when the entry lies strictly below the destination (and the destination is not "/") |
| ZipSlip.PlainEntryAccepted | services/provisioner/src/main/java/com/hanyahunya/provisioner/adapter/out/aws/S3Adapter.java:84-93 | a plain file name is accepted |
| ZipSlip.DestinationItselfRejected | services/provisioner/src/main/java/com/hanyahunya/provisioner/adapter/out/aws/S3Adapter.java:89-91 | "" and "." are rejected |
| ZipSlip.ParentEntryChain | services/provisioner/src/main/java/com/hanyahunya/provisioner/adapter/out/aws/S3Adapter.java:85-87 | "../s" resolves to a sibling of the destination |
| ZipSlip.ParentEscapeRejected | services/provisioner/src/main/java/com/hanyahunya/provisioner/adapter/out/aws/S3Adapter.java:89-91 | "../s" is rejected |
| ZipSlip.SiblingWithSharedPrefixRejected | services/provisioner/src/main/java/com/hanyahunya/provisioner/adapter/out/aws/S3Adapter.java:89-91 | a sibling whose name extends the destination's name is rejected, although its path starts with the destination's path |
| ZipSlip.ParentRejected | services/provisioner/src/main/java/com/hanyahunya/provisioner/adapter/out/aws/S3Adapter.java:89-91 | ".." is rejected |
| Gateway.FirstHeader | services/gateway/src/main/java/com/hanyahunya/gateway/AuthenticationFilter.java:70-152 | getFirst: a value exactly when the header is present with at least one value, and then its first value |
| Gateway.ClientIpFallback | services/gateway/src/main/java/com/hanyahunya/gateway/AuthenticationFilter.java:151-163 | the address is the first non-empty of X-Forwarded-For, Proxy-Client-IP, WL-Proxy-Client-IP, else the remote address; with no remote address a missing header dereferences null and an empty one is returned as it is |
| Gateway.BearerToken | services/gateway/src/main/java/com/hanyahunya/gateway/AuthenticationFilter.java:70-74 | a token exactly when the header starts with "Bearer ", and the header is "Bearer " followed by the token |
| Gateway.WhitelistBypass | services/gateway/src/main/java/com/hanyahunya/gateway/AuthenticationFilter.java:60-64 | a request passes untouched exactly when its path starts with "/auth/", "/invoke" or "/actuator/health" |
| Gateway.HeaderRequired | services/gateway/src/main/java/com/hanyahunya/gateway/AuthenticationFilter.java:66-106 | off the whitelist, a missing or non-bearer Authorization header, or a token that does not verify, is answered 401 |
| Gateway.BlacklistCutoff | services/gateway/src/main/java/com/hanyahunya/gateway/AuthenticationFilter.java:82-97 | with a blacklist entry, a token issued (in whole seconds) before the compromise time is answered 401; one issued at or after it is treated as if there were no entry |
| Gateway.ForwardedOnlyAsTokenSubject | services/gateway/src/main/java/com/hanyahunya/gateway/AuthenticationFilter.java:76-126 | a request is forwarded or answered 200 only with a verified bearer token; it is forwarded as the token's own subject and role, and /token/verify is answered, never forwarded |
| RegistryDomain.SignupUser | services/registry/src/main/java/com/hanyahunya/registry/domain/model/User.java:38-46 | the signup constructor: a fresh id, the given e-mail and password, ROLE_USER, PENDING_APPROVAL |
| RegistryDomain.UserReference | services/registry/src/main/java/com/hanyahunya/registry/domain/model/User.java:48-51 | the id-only constructor leaves every other column null |
| RegistryDomain.NormaliseTimeout | services/registry/src/main/java/com/hanyahunya/registry/domain/model/Function.java:56-62 | the stored timeout never exceeds 3600 and is 300, the given value, or 3600 |
| RegistryDomain.NormaliseTimeoutCases | services/registry/src/main/java/com/hanyahunya/registry/domain/model/Function.java:61-62 | 0 becomes 300; 1..3600 and every negative value are kept (there is no lower bound); above 3600 becomes 3600 |
| RegistryDomain.NormaliseTimeoutIdempotent | services/registry/src/main/java/com/hanyahunya/registry/domain/model/Function.java:58-65 | calling update again with the stored timeout keeps it |
| RegistryDomain.FunctionEntity.constructor | services/registry/src/main/java/com/hanyahunya/registry/domain/model/Function.java:47-54 | the builder links the user by id only and then applies update |
| RegistryDomain.FunctionEntity.Update | services/registry/src/main/java/com/hanyahunya/registry/domain/model/Function.java:58-65 | name, description, runtime and key stored verbatim, the timeout normalised |
| RegistryServices.AuthFunction | services/registry/src/main/java/com/hanyahunya/registry/application/service/FunctionAuthService.java:18-30 | fails only when no FUNCTION_KEY encoder is registered; valid exactly when the function exists and the key matches its stored hash; the S3 key is returned exactly on a valid answer, and it is the stored one |
| RegistryServices.RegisteredKeyAuthenticates | services/registry/src/main/java/com/hanyahunya/registry/application/service/FunctionAuthService.java:20-29 | the plaintext key handed out at registration authenticates; a key with a different encoding does not |
| RegistryServices.S3KeyInjective | services/registry/src/main/java/com/hanyahunya/registry/application/service/FunctionRegisterService.java:47 | distinct (owner, function) pairs get distinct artifact keys |
| RegistryServices.FileNameByRuntime | services/registry/src/main/java/com/hanyahunya/registry/application/service/FunctionRegisterService.java:102-108 | a file name exactly for names starting PYTHON, JAVA or NODE; otherwise "Unknown runtime type: "+name |
| RegistryServices.FileNameOfRuntime | services/registry/src/main/java/com/hanyahunya/registry/application/service/FunctionRegisterService.java:102-108 | every runtime gets main.py, Main.java or index.js by its language family |
| RegistryServices.ZipArtifact | services/registry/src/main/java/com/hanyahunya/registry/application/service/FunctionRegisterService.java:73-100 | fails with "Failed to create zip artifact" exactly for null code; otherwise two entries: config.json with the runtime and env, then the code file named by the runtime |
| RegistryServices.CheckerIsSafe | services/registry/src/main/java/com/hanyahunya/registry/application/service/FunctionRegisterService.java:36-39 | the verdict of the checker found for the runtime: the Python or Node keyword check, or the Java parse-then-keyword verdict; null code is safe |
| RegistryServices.FunctionRegisterService.constructor | services/registry/src/main/java/com/hanyahunya/registry/application/service/FunctionRegisterService.java:26-31 | starts from the given table and bucket |
| RegistryServices.FunctionRegisterService.Register | services/registry/src/main/java/com/hanyahunya/registry/application/service/FunctionRegisterService.java:33-71 | a missing checker or FUNCTION_KEY encoder fails with "unsupported type: ..."; code the runtime's checker finds unsafe fails with MaliciousCode before anything is uploaded or saved, and only such code does; any failure leaves the table unchanged, and only an upload failure may leave the bucket changed; success happens exactly when the checker and encoder exist, the code is safe and non-null and the upload works; a null code fails with "Failed to create zip artifact" and an upload failure with UploadFailed, each exactly in its case; success uploads the zip under "functions/<user>/<function>.zip", stores one row with the encoded dash-free key and the default timeout, and returns the plaintext key |
| RegistryServices.RegisteredTimeoutIsDefault | services/registry/src/main/java/com/hanyahunya/registry/application/service/FunctionRegisterService.java:58-66 | the builder never sets a timeout, so a registered function gets 300 seconds |
| RegistryServices.UserAuthLogin | services/registry/src/main/java/com/hanyahunya/registry/application/service/UserAuthService.java:22-36 | fails with "unsupported type: PASSWORD" exactly when no PASSWORD encoder is registered; tokens exactly for a known e-mail whose stored hash matches the password under that encoder and an ACTIVE status; an unknown e-mail is a plain failure |
| RegistryServices.AuthLogin | services/registry/src/main/java/com/hanyahunya/registry/application/service/AuthService.java:21-33 | tokens exactly for a known e-mail whose stored hash the password hasher accepts and an ACTIVE status; a null stored hash is a plain failure; no encoder lookup can fail |
| RegistryServices.LoginDecisionTable | services/registry/src/main/java/com/hanyahunya/registry/application/service/UserAuthService.java:26-35 | tokens exactly for a known e-mail, a matching password and ACTIVE; a plain failure for an unknown e-mail or a wrong password; a failure carrying PENDING_APPROVAL for a pending account; the compromised error for COMPROMISED |
| RegistryServices.WrongPasswordHidesStatus | services/registry/src/main/java/com/hanyahunya/registry/application/service/UserAuthService.java:27-30 | a wrong password gives the same answer whatever the account's status |
| RegistryServices.LoginServicesAgree | services/registry/src/main/java/com/hanyahunya/registry/application/service/UserAuthService.java:22-36 | the two login services decide identically once their password checks agree |
| RegistryServices.UserAuthNeedsPasswordEncoder | services/registry/src/main/java/com/hanyahunya/registry/application/service/UserAuthService.java:24 | with the system's function-key and JWT-token encoders, UserAuthService fails every login with "unsupported type: PASSWORD" |
| RegistryServices.UserRegisterService.constructor | services/registry/src/main/java/com/hanyahunya/registry/application/service/UserRegisterService.java:16-18 | starts from the given users table |
| RegistryServices.UserRegisterService.Register | services/registry/src/main/java/com/hanyahunya/registry/application/service/UserRegisterService.java:20-36 | fails without a PASSWORD encoder or for a taken e-mail, changing nothing; otherwise adds exactly one pending user with the encoded password |
| RegistryServices.SignupThenLogin | services/registry/src/main/java/com/hanyahunya/registry/application/service/UserRegisterService.java:31-35 | right after signup the right password meets the pending status and a wrong one a plain failure |
| RegistryServices.HandlerStatuses | services/registry/src/main/java/com/hanyahunya/registry/global/GlobalExceptionHandler.java:16-44 | 409 without body exactly for a taken e-mail; 403 exactly for pending, 423 exactly for compromised; every other login failure is 401 LOGIN_FAILED |
| RegistryServices.PendingSignupAnswered | services/registry/src/main/java/com/hanyahunya/registry/global/GlobalExceptionHandler.java:22-44 | a fresh signup that logs in is answered 403 ACCOUNT_PENDING, and with a wrong password 401 |
| Encoding.Unsigned | services/registry/src/main/java/com/hanyahunya/registry/adapter/out/security/AbstractSha256EncodeAdapter.java:38-42 | %02x prints a byte's unsigned value, congruent to it modulo 256 |
| Encoding.ByteHex | services/registry/src/main/java/com/hanyahunya/registry/adapter/out/security/AbstractSha256EncodeAdapter.java:40 | String.format("%02x", b) is two lower-case hexadecimal digits |
| Encoding.Hex | services/registry/src/main/java/com/hanyahunya/registry/adapter/out/security/AbstractSha256EncodeAdapter.java:38-42 | the rendering has two lower-case digits per byte |
| Encoding.HexAt | services/registry/src/main/java/com/hanyahunya/registry/adapter/out/security/AbstractSha256EncodeAdapter.java:40 | characters 2i and 2i+1 are the digits of byte i |
| Encoding.BytesToHex | services/registry/src/main/java/com/hanyahunya/registry/adapter/out/security/AbstractSha256EncodeAdapter.java:38-42 | the StringBuilder loop returns exactly the rendering Hex(bytes) |
| Encoding.Unhex | services/registry/src/main/java/com/hanyahunya/registry/adapter/out/security/AbstractSha256EncodeAdapter.java:33-36 | a reading of a rendering, failing on odd length or a non-lower-hex character |
| Encoding.ByteHexRoundTrip | services/registry/src/main/java/com/hanyahunya/registry/adapter/out/security/AbstractSha256EncodeAdapter.java:40 | the two digits of a byte read back as that byte |
| Encoding.HexRoundTrip | services/registry/src/main/java/com/hanyahunya/registry/adapter/out/security/AbstractSha256EncodeAdapter.java:38-42 | reading back a rendering gives the bytes |
| Encoding.HexInjective | services/registry/src/main/java/com/hanyahunya/registry/adapter/out/security/AbstractSha256EncodeAdapter.java:38-42 | distinct MACs give distinct stored hashes |
| Encoding.UnhexSound | services/registry/src/main/java/com/hanyahunya/registry/adapter/out/security/AbstractSha256EncodeAdapter.java:33-36 | whatever reads back as bytes is the rendering of those bytes |
| Encoding.HexByteDigits | services/registry/src/main/java/com/hanyahunya/registry/adapter/out/security/AbstractSha256EncodeAdapter.java:40 | two lower-case digits are the rendering of the byte they read as |
| Encoding.DigitOfHexValue | services/registry/src/main/java/com/hanyahunya/registry/adapter/out/security/AbstractSha256EncodeAdapter.java:40 | a lower-case digit is the digit of its own value |
| Encoding.NewSha256Encoder | services/registry/src/main/java/com/hanyahunya/registry/adapter/out/security/AbstractSha256EncodeAdapter.java:14-19 | succeeds exactly for a non-null, non-empty secret; otherwise IllegalArgumentException "Secret key cannot be empty" |
| Encoding.InitSha256Encoder | services/registry/src/main/java/com/hanyahunya/registry/adapter/out/security/Sha256EncodeAdapter.java:21-26 | succeeds exactly for a non-null, non-empty secret; otherwise IllegalStateException "Secret key for hashing cannot be empty" |
| Encoding.MatchesIff | services/registry/src/main/java/com/hanyahunya/registry/adapter/out/security/AbstractSha256EncodeAdapter.java:21-36 | matches holds exactly when the stored hash reads back as the MAC of the data; a matching hash is lower-case hex of twice the MAC length; the encoding of data matches it |
| Encoding.EncoderRegistryContents | services/registry/src/main/java/com/hanyahunya/registry/application/port/out/EncodeAdapterFactory.java:14-28 | with the system's encoders the factory builds; FUNCTION_KEY and JWT_TOKEN give their encoders, PASSWORD fails with "unsupported type: PASSWORD" |
| Encoding.DuplicateEncodeTypeFails | services/registry/src/main/java/com/hanyahunya/registry/application/port/out/EncodeAdapterFactory.java:15-19 | two encoders of one type make the factory's construction fail on that type |
| Registries.ToMapSpec | services/registry/src/main/java/com/hanyahunya/registry/application/port/out/EncodeAdapterFactory.java:15-19 | Collectors.toMap succeeds exactly when no key repeats, and then maps every key to its entry; a failure names a repeated key |
| Registries.Lookup | services/registry/src/main/java/com/hanyahunya/registry/application/port/out/EncodeAdapterFactory.java:22-28 | the registered adapter, or "unsupported type: "+name exactly when none is registered |
| CodeCheck.FirstHit | services/registry/src/main/java/com/hanyahunya/registry/adapter/out/analysis/python/AbstractPythonMaliciousCodeCheckAdapter.java:28-33 | the first blacklisted string in list order that the code contains, none when none occurs |
| CodeCheck.BlankContainsNoVisible | services/registry/src/main/java/com/hanyahunya/registry/adapter/out/analysis/python/AbstractPythonMaliciousCodeCheckAdapter.java:24-26 | blank code contains no visible string, so the early return agrees with the scan |
| CodeCheck.KeywordSafeIff | services/registry/src/main/java/com/hanyahunya/registry/adapter/out/analysis/python/AbstractPythonMaliciousCodeCheckAdapter.java:22-35 | a keyword checker is safe exactly when no blacklisted string occurs |
| CodeCheck.BlacklistsVisible | services/registry/src/main/java/com/hanyahunya/registry/adapter/out/analysis/python/AbstractPythonMaliciousCodeCheckAdapter.java:12-20 | every blacklisted string has a visible character |
| CodeCheck.PythonSafeIff | services/registry/src/main/java/com/hanyahunya/registry/adapter/out/analysis/python/AbstractPythonMaliciousCodeCheckAdapter.java:12-35 | Python code is unsafe exactly when one of the seven strings occurs |
| CodeCheck.NodeSafeIff | services/registry/src/main/java/com/hanyahunya/registry/adapter/out/analysis/node/AbstractNodeMaliciousCodeCheckAdapter.java:12-33 | Node code is unsafe exactly when one of the six strings occurs |
| CodeCheck.KeywordOrderIrrelevant | services/registry/src/main/java/com/hanyahunya/registry/adapter/out/analysis/python/AbstractPythonMaliciousCodeCheckAdapter.java:28-33 | the verdict depends on the set of blacklisted strings, not their order |
| CodeCheck.UnsafeStaysUnsafe | services/registry/src/main/java/com/hanyahunya/registry/adapter/out/analysis/python/AbstractPythonMaliciousCodeCheckAdapter.java:28-33 | unsafe code stays unsafe whatever text surrounds it |
| CodeCheck.LastBlocked | services/registry/src/main/java/com/hanyahunya/registry/adapter/out/analysis/java/AbstractJavaMaliciousCodeCheckAdapter.java:55-63 | the last flagged call exists exactly when some visited call's signature contains a blocked call |
| CodeCheck.SecurityVisitor.constructor | services/registry/src/main/java/com/hanyahunya/registry/adapter/out/analysis/java/AbstractJavaMaliciousCodeCheckAdapter.java:51-53 | starts unflagged with an empty reason |
| CodeCheck.SecurityVisitor.Visit | services/registry/src/main/java/com/hanyahunya/registry/adapter/out/analysis/java/AbstractJavaMaliciousCodeCheckAdapter.java:55-63 | the flag is set (and never cleared) when the signature contains a blocked call, and the reason becomes "Blocked call: "+signature |
| CodeCheck.SecurityVisitor.Traverse | services/registry/src/main/java/com/hanyahunya/registry/adapter/out/analysis/java/AbstractJavaMaliciousCodeCheckAdapter.java:30-63 | after visiting every call the flag is set exactly when some call was blocked, and the reason names the last one |
| CodeCheck.JavaIsSafe | services/registry/src/main/java/com/hanyahunya/registry/adapter/out/analysis/java/AbstractJavaMaliciousCodeCheckAdapter.java:24-48 | null or blank code is safe; parsed code is safe exactly when no call is blocked; unparsable code falls back to the keyword check (together, the verdict JavaVerdict) |
| CodeCheck.FallbackIff | services/registry/src/main/java/com/hanyahunya/registry/adapter/out/analysis/java/AbstractJavaMaliciousCodeCheckAdapter.java:46-48 | the fallback refuses exactly code mentioning one of the four blocked calls |
| CodeCheck.SystemExitCaught | services/registry/src/main/java/com/hanyahunya/registry/adapter/out/analysis/java/AbstractJavaMaliciousCodeCheckAdapter.java:17-58 | System.exit(...) is flagged |
| CodeCheck.CheckerRegistryContents | services/registry/src/main/java/com/hanyahunya/registry/application/port/out/MaliciousCodeCheckAdapterFactory.java:14-28 | the checkers build a registry in which every runtime but JAVA_21 finds its language's checker and JAVA_21 fails with "unsupported type: JAVA_21" |
| CodeCheck.DuplicateCheckerFails | services/registry/src/main/java/com/hanyahunya/registry/application/port/out/MaliciousCodeCheckAdapterFactory.java:15-19 | two checkers for one runtime make the factory's construction fail |
| Common.Wrap32 | services/invoker/src/main/java/com/hanyahunya/invoker/adapter/out/redis/ContainerRedisAdapter.java:71 | int arithmetic: congruent to the mathematical value modulo 2^32, and equal to it within the int range |
| Common.JavaAbs | services/invoker/src/main/java/com/hanyahunya/invoker/adapter/out/redis/ContainerRedisAdapter.java:71 | Math.abs is non-negative and equal to x or -x, except that Integer.MIN_VALUE stays Integer.MIN_VALUE |
| Common.JavaRem | services/invoker/src/main/java/com/hanyahunya/invoker/adapter/out/redis/ContainerRedisAdapter.java:71 | Java's %: congruent to the dividend modulo the divisor, below the divisor in magnitude, with the dividend's sign |
| Common.JavaDiv | services/gateway/src/main/java/com/hanyahunya/gateway/AuthenticationFilter.java:85 | Java's /: dividend == divisor * quotient + Java remainder, so the quotient is truncated toward zero and has the dividend's sign |
| Common.RemoveAll | services/provisioner/src/main/java/com/hanyahunya/provisioner/adapter/out/redis/RedisClusterStateAdapter.java:39 | String.replace(target, "") never lengthens the string |
| Common.RemoveAllChar | services/registry/src/main/java/com/hanyahunya/registry/application/service/FunctionRegisterService.java:56 | removing "-" leaves no dash and shortens the string by exactly the number of dashes |
| Common.RemoveAllAbsent | services/registry/src/main/java/com/hanyahunya/registry/application/service/FunctionRegisterService.java:56 | removing a character that does not occur changes nothing |
| Common.RemoveAllCharAppend | services/registry/src/main/java/com/hanyahunya/registry/application/service/FunctionRegisterService.java:56 | removing one character from a concatenation removes it from each part |
| Common.SplitFields | services/provisioner/src/main/java/com/hanyahunya/provisioner/application/system/ResourceCleanupService.java:74 | splitting on a character gives at least one field and no field holds the separator |
| Common.JavaSplit | services/provisioner/src/main/java/com/hanyahunya/provisioner/application/system/ResourceCleanupService.java:74 | String.split: no field holds the separator, and a last field is empty only for the empty input |
| Common.SplitFieldsJoin | services/provisioner/src/main/java/com/hanyahunya/provisioner/application/system/ResourceCleanupService.java:74 | joining the fields of a split (empty fields kept) with the separator gives back the input |
| Common.JavaSplitJoin | services/provisioner/src/main/java/com/hanyahunya/provisioner/application/system/ResourceCleanupService.java:74 | String.split loses only trailing separators: the input is the fields joined by the separator, followed by separators only |
| Common.SplitFieldsHead | services/provisioner/src/main/java/com/hanyahunya/provisioner/application/system/ResourceCleanupService.java:74 | a separator-free field followed by the separator is split off first |
| Common.SplitFieldsNone | services/provisioner/src/main/java/com/hanyahunya/provisioner/application/system/ResourceCleanupService.java:74 | a separator-free string is one field |
| Common.NatToString | services/provisioner/src/main/java/com/hanyahunya/provisioner/adapter/in/redis/RedisWorkerAdapter.java:92-140 | decimal digits, at least one, without a leading zero |
| Common.DigitsValueOfNatToString | services/provisioner/src/main/java/com/hanyahunya/provisioner/adapter/in/redis/RedisWorkerAdapter.java:92-140 | reading the digits back gives the number |
| Common.NatToStringInjective | services/provisioner/src/main/java/com/hanyahunya/provisioner/adapter/in/redis/RedisWorkerAdapter.java:92-140 | distinct numbers print differently |
| Common.IntToString | services/provisioner/src/main/java/com/hanyahunya/provisioner/adapter/in/redis/RedisWorkerAdapter.java:92-140 | Integer.toString: digits only exactly for non-negative values, a leading '-' exactly for negative ones |
| Common.IntToStringInjective | services/provisioner/src/main/java/com/hanyahunya/provisioner/adapter/in/redis/RedisWorkerAdapter.java:92-140 | distinct partitions get distinct queue-name suffixes |
| Common.ParseLong | services/gateway/src/main/java/com/hanyahunya/gateway/AuthenticationFilter.java:84 | a parsed value lies in the long range |
| Common.ParseLongOfIntToString | services/gateway/src/main/java/com/hanyahunya/gateway/AuthenticationFilter.java:84 | Long.parseLong reads back any long's decimal form |
| Common.ContainsExtended | services/registry/src/main/java/com/hanyahunya/registry/adapter/out/analysis/python/AbstractPythonMaliciousCodeCheckAdapter.java:28-33 | a string containing a substring still does once text is added around it |
| Common.HexDigit | services/registry/src/main/java/com/hanyahunya/registry/adapter/out/security/AbstractSha256EncodeAdapter.java:40 | a value below 16 has a lower-case hexadecimal digit |
| Common.HexValue | services/registry/src/main/java/com/hanyahunya/registry/adapter/out/security/AbstractSha256EncodeAdapter.java:40 | a hexadecimal digit is worth less than 16 |
| Common.HexValueOfDigit | services/registry/src/main/java/com/hanyahunya/registry/adapter/out/security/AbstractSha256EncodeAdapter.java:40 | the digit of a value reads back as that value |
| Uuids.HexOf | services/provisioner/src/main/java/com/hanyahunya/provisioner/application/system/ClusterCoordinationService.java:26 | UUID.toString's groups: exactly n lower-case hexadecimal digits |
| Uuids.ParseHex | services/provisioner/src/main/java/com/hanyahunya/provisioner/adapter/in/redis/RedisWorkerAdapter.java:157 | a group of n digits is worth less than 16^n |
| Uuids.ParseHexOf | services/provisioner/src/main/java/com/hanyahunya/provisioner/adapter/in/redis/RedisWorkerAdapter.java:157 | n digits of x read back as x modulo 16^n |
| Uuids.ToString | services/provisioner/src/main/java/com/hanyahunya/provisioner/application/system/ClusterCoordinationService.java:26 | the 8-4-4-4-12 layout of lower-case digits and dashes |
| Uuids.ToStringGroups | services/invoker/src/main/java/com/hanyahunya/invoker/adapter/out/redis/ContainerRedisAdapter.java:47 | each group is the digits of the matching bits of msb or lsb |
| Uuids.Parse | services/provisioner/src/main/java/com/hanyahunya/provisioner/adapter/in/redis/RedisWorkerAdapter.java:157 | UUID.fromString succeeds exactly on the canonical layout |
| Uuids.ParseGroups | services/provisioner/src/main/java/com/hanyahunya/provisioner/adapter/in/redis/RedisWorkerAdapter.java:157 | a canonical string reads as the UUID assembled from its five groups |
| Uuids.ParseToString | services/invoker/src/main/java/com/hanyahunya/invoker/adapter/out/redis/ContainerRedisAdapter.java:47 | UUID.fromString reads back what UUID.toString wrote, so the function id survives the cold-start message |
| Uuids.ToStringInjective | services/registry/src/main/java/com/hanyahunya/registry/application/service/FunctionRegisterService.java:47 | distinct UUIDs print differently |
| Uuids.ToStringAvoids | services/registry/src/main/java/com/hanyahunya/registry/application/service/FunctionRegisterService.java:47 | a UUID's string form contains no character other than digits and '-', so no ':' or '/' |

## Left out

- **Concurrency.** The model runs sequentially. Each scheduled tick, each
  message and each request is one method call. This leaves out:
  - virtual-thread executors and `Future.cancel` (a cancelled listener is
    counted, not interrupted);
  - the per-function download lock in ContainerService;
  - races between nodes that touch the same key.
- **The provisioner's listener loop.** Each listener repeats an untimed
  `BLPOP` over its batch's "func:request:queue:"+p keys. That loop and its
  pop are left out: the popped message is an input to
  `Worker.WorkerAdapter.ProcessMessage` and `Provisioning.HandleRequest`.
- **The invoker's wait for a container.** Its `leftPop` with a 3-minute
  timeout is reduced to one blocking pop (`Store.KvStore.AwaitLeftPop`),
  with the elements that arrive during the wait as an input. The timeout
  itself is not modelled.
- **`@Scheduled` periods.** Each tick is a call with the current time as a
  parameter.
- **`WatchService` timing and nanosecond deadlines.** The socket wait takes
  the history of poll outcomes as an input (`Docker.WaitForSocketFile`).
- **`ContainerService.waitForSocketCreation`.** This second socket wait,
  after the container has started, only logs and never fails. It changes
  no state, so it is left out: it is only a delay.
- **JSON serialization.** Store list elements are the datatype
  `Store.Payload`, not bytes. For a container info it records only whether
  the JSON is plain (the provisioner's) or carries type information (the
  invoker's template). The model assumes the invoker reads back both forms.
- **Zip and S3 I/O.** Zip creation is reduced to its ordered entry list
  (`RegistryServices.ZipArtifact`). The S3 `unzip` loop, the upload and the
  download are left out; their success or failure is an input. Only
  `newFile`'s zip-slip containment check is modelled, on canonical paths.
- **Cryptography and tokens.** HMAC-SHA-256, bcrypt, PBKDF2 and JWT
  signing and parsing are inputs. Hash values are not computed.
  `TokenService` and token issuing are not part of this model.
- **Java source parsing.** The parser is an input. It yields the list of
  method-call signatures, or a parse failure.
- **Collaborators outside the core.** The gRPC agent, controllers, DTOs,
  Mongo and JPA repositories and Spring configuration are left out. The
  agent's response is an input, and the repositories are maps.
- **The runtime bootstraps** (the Python and Node socket servers) are not
  part of this model.
- **`RegisterService`.** It calls a `User.builder()` that `User` does not
  define, so it is not part of this model.
- **The `EncodeType` enum.** Its source is not part of this model. It is
  taken to have exactly the three values the services use: `FUNCTION_KEY`,
  `JWT_TOKEN` and `PASSWORD`.
- **`Role` values.** Only `ROLE_USER` is used; the gateway's role is an
  optional string.
- **Execution log timestamps and the agent's timing metrics.** They are
  not recorded.
- **Host inputs.** `getFunctionContainerCount` has no implementation in
  the code, so the container count is an input to `Worker.Decide`. The
  host's IP address and `System.currentTimeMillis` are parameters too.
- **Failed store calls.**
  - In the GC, a store exception on one member is not modelled.
  - In the gateway, an exception from the blacklist lookup is not
    modelled.
  - Two store failures are modelled. `returnContainer`'s failed push is
    swallowed (`ContainerPool.ContainerRedisAdapter.ReturnContainer`).
    `sendContainerInfo`'s failed push is reported to its caller
    (`Provisioning.ContainerResultAdapter.SendContainerInfo`), and
    `createAndRunContainer` then discards the instance but keeps its GC
    registration.
  - The GC visits the expired members as a set. Its result does not
    depend on the order, so the visiting order of the score-ordered set is
    not modelled.
- **Header names.** In `Gateway.FirstHeader` they are compared
  case-sensitively. Real HTTP header lookup ignores case.
- Common.RemoveAll: its own contract states only that the result is no
  longer than the input. What it keeps and removes is proved by
  `Common.RemoveAllChar`, `Common.RemoveAllAbsent` and
  `ClusterState.HeartbeatKeyRoundTrip` for the targets the code uses.
- Common.ParseLong: its own contract states only that a parsed value is in
  the long range. `Common.ParseLongOfIntToString` proves that a long's
  decimal form reads back. The model does not state which malformed
  strings are rejected.
- Provisioning.PrepareFunctionCode: the unpacked entry names are an input
  and do not pass through `ZipSlip.NewFile`. The zip-slip guard is proved
  on its own and is not connected to the package step.
- Docker.RemoveContainer: the Docker adapter has no public
  `removeContainer`, although `ContainerOrchestrationPort` declares it. The
  model gives it the behaviour of the adapter's private
  `removeContainerIfExists` (a forced removal of "ins-"+id, failures
  ignored).
- RegistryDomain.FunctionEntity: `Function` declares no `accessKey` field,
  but `FunctionRegisterService` and `FunctionAuthService` build and read
  one. The model gives the entity that field.
- Partitioning.StrLess: compares characters as Unicode scalar values.
  `String.compareTo` compares UTF-16 code units. The two orders agree on the
  ASCII node identifiers (UUID strings) that are compared here.
- Uuids.Parse: accepts only the 36-character canonical layout, hex digits
  of either case. `UUID.fromString` also accepts shorter groups, which are
  not modelled.
