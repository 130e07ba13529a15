# Replication applier and endpoint discovery, modelled in Dafny

This project models two parts of the database server's replication control plane.

- **The replication applier controller** (`ReplicationApplier`). It is the state machine of one database's asynchronous replication worker. Its state is the flags `active`, `preventStart` and `stopInitialSynchronization`, the last error, the progress message, the configuration (endpoint and database), the termination flag that tells the worker to finish, and the owned worker thread. The model is a Dafny class in `replication_applier.dfy` (module `Applier`). Each public operation is one atomic step on the object. Every method keeps the class invariant `Valid()`: the applier is never active while starts are blocked (`!(active && preventStart)`). The file also models the worker's interruptible sleep `wait`. In the model, `wait` is a loop proved against the chunk schedule `Chunks`.
- **Endpoint discovery** (`RestClusterHandler`). This part answers `GET /_api/cluster/endpoints`. It dispatches on the request method and path suffix, and checks the server role and the failover and agency flags. For a failover-capable single server, it builds the id list: the elected leader first, then every other server whose health status is `"GOOD"`, in the health object's order. It then maps the list through the endpoint directory. The model is pure functions and lemmas in `rest_cluster_handler.dfy` (module `Cluster`).

`basics.dfy` (module `Basics`) holds `Option` and the error codes (`TRI_ERROR_*`) as a datatype.

Collaborators the model cannot see are inputs:
- the outcome of launching the worker thread (`Start`'s `threadStarted`);
- the result of deleting the state file (`RemoveState`'s `unlinkResult`);
- the default error texts (`errnoString`, given to the constructor);
- which looks at the termination flag during `wait` find it raised (the set `seenRaised` of look indices; the flag is raised by another thread);
- the agency read transaction (`AgencyReadResult`);
- the server role, flags, coordinator list and endpoint directory (`ClusterContext`).

Results and exceptions are both modelled as a returned `ErrorCode`. `NoError` means a normal return. Any other code is the code the source returns or throws.

## Model

| member | source | states |
|---|---|---|
| `Applier.ReplicationApplier.constructor` | arangod/Replication/ReplicationApplier.cpp:72-78 | The applier starts inactive, not blocked, with no error and the termination flag low. It keeps the given configuration and database name. Its progress message is "applier initially created for " followed by the database name. |
| `Applier.ReplicationApplier.IsRunning` | arangod/Replication/ReplicationApplier.cpp:83-86 | Reports exactly whether the applier is active. |
| `Applier.ReplicationApplier.PreventStart` | arangod/Replication/ReplicationApplier.cpp:89-106 | Fails with REPLICATION_RUNNING when active, else with LOCKED when already blocked, and then changes nothing. Otherwise it sets `preventStart`, clears `stopInitialSynchronization` and succeeds. It keeps the invariant. |
| `Applier.ReplicationApplier.AllowStart` | arangod/Replication/ReplicationApplier.cpp:109-120 | Fails with INTERNAL exactly when starts were not blocked, and then changes nothing. Otherwise it clears both `preventStart` and `stopInitialSynchronization`. |
| `Applier.ReplicationApplier.Start` | arangod/Replication/ReplicationApplier.cpp:142-177 | The cases are checked in this order. When blocked it fails with LOCKED and changes nothing. When already active it succeeds and changes nothing. With an empty endpoint or database it records INVALID_APPLIER_CONFIGURATION with "no endpoint configured" in `lastError`, fails with that code, and stays inactive. Otherwise it clears `lastError`, keeps the termination flag low and becomes active. If the thread fails to launch, it drops the handle and fails with INTERNAL but stays active. The configuration is never changed. Requires the termination flag low; see Left out. |
| `Applier.ReplicationApplier.Stop` | arangod/Replication/ReplicationApplier.cpp:197-225 | Always sets `stopInitialSynchronization`. When inactive nothing else changes. When active it becomes inactive with progress "applier shut down". `lastError` is cleared iff `resetError`. The termination flag ends low and the handle is released iff `joinThread`; otherwise the flag stays raised. |
| `Applier.ReplicationApplier.Shutdown` | arangod/Replication/ReplicationApplier.cpp:232-253 | When inactive nothing changes, not even `stopInitialSynchronization`. When active it becomes inactive with the error cleared and progress "applier stopped". The handle is released and the termination flag ends low. |
| `Applier.ReplicationApplier.RemoveState` | arangod/Replication/ReplicationApplier.cpp:259-274 | Resets the state to its defaults. Without a state file it succeeds, so a repeated call is not an error. With a file it returns the unlink result, and the file is gone iff the unlink succeeded. |
| `Applier.ReplicationApplier.Reconfigure` | arangod/Replication/ReplicationApplier.cpp:276-293 | An empty endpoint fails with INVALID_APPLIER_CONFIGURATION before `active` is looked at. When active it fails with REPLICATION_RUNNING. Otherwise the configuration becomes exactly the argument. The configuration changes only on success, and only while inactive. |
| `Applier.ReplicationApplier.SetErrorNoLock` | arangod/Replication/ReplicationApplier.cpp:369-379 | Returns the given code. Records it as the last error with the given message, or with the code's default text when the message is empty. |
| `Applier.ReplicationApplier.SetProgressNoLock` | arangod/Replication/ReplicationApplier.cpp:381-386 | The progress message becomes the given one. |
| `Applier.Wait` | arangod/Replication/ReplicationApplier.cpp:389-419 | The flag is looked at once before any sleep and once after each sleep. The sleeps performed are a prefix of the schedule `Chunks(sleepTime)`, and each is positive and at most 500000. Every look but the last finds the flag low. The result is true iff the last look finds it low too, so a look that finds termination always gives false. A flag raised before the call gives false with no sleep. A true result means the sleeps are the whole schedule and add up to exactly `sleepTime`, so `wait(0)` without termination returns true with no sleep. |
| `Applier.ChunksSum` | arangod/Replication/ReplicationApplier.cpp:398-416 | An uninterrupted wait sleeps exactly the requested time. |
| `Applier.ChunksBounded` | arangod/Replication/ReplicationApplier.cpp:398-415 | Every sleep of every prefix of the schedule is positive and at most one chunk. |
| `Applier.SleepStep` | arangod/Replication/ReplicationApplier.cpp:400-415 | With time remaining, a sleep of min(remaining, 500000) keeps the loop on schedule. The sleeps done followed by the schedule of the time remaining are still the schedule of the request, and the time slept plus the time remaining still equals the request. |
| `Applier.WaitExit` | arangod/Replication/ReplicationApplier.cpp:400-418 | At any return of the loop that is on schedule, the sleeps are a prefix of the schedule, each positive and at most one chunk, and they add up to at most the request. A true result, which needs nothing left to sleep, means they are the whole schedule and add up to exactly the request. |
| `Applier.CancellationLatency` | arangod/Replication/ReplicationApplier.cpp:400-407 | Say the termination request is raised at some time during the wait, and the look after k - 1 sleeps came before it. Then the look after k sleeps comes less than one chunk after the request. This bounds the schedule only; `WaitNoticesTermination` applies it to `wait`'s result. |
| `Applier.WaitNoticesTermination` | arangod/Replication/ReplicationApplier.cpp:389-419 | Say termination is raised `raisedAt` time units into the wait, no later than `sleepTime`, and every look made from then on finds it. Then `wait` returns false, and the time it has slept is less than `raisedAt` plus one chunk. So a cancellation during a wait is noticed within one chunk. |
| `Cluster.Execute` | arangod/Cluster/RestClusterHandler.cpp:44-63 | A non-GET request gets 403 FORBIDDEN "only the GET method is allowed" with no agency read and no role check. An empty suffix list, or a first suffix other than "endpoints", gets 403 FORBIDDEN "expecting _api/cluster/endpoints" with no agency read. GET with first suffix "endpoints" is answered exactly as `HandleCommandEndpoints` answers it. The agency is read only for GET endpoints on a failover-capable single server with the agency enabled. An endpoint list is produced only for GET by a coordinator or single server. |
| `Cluster.HandleCommandEndpoints` | arangod/Cluster/RestClusterHandler.cpp:84-162 | A coordinator answers with the endpoint of every current coordinator, in list order, and makes no agency read. A single server without automatic failover or without the agency gets FORBIDDEN. Any other role gets FORBIDDEN "only coordinators can serve this request". Otherwise exactly one agency read is made. A failed read gives SERVER_ERROR with the read's own code and message and no list. A successful read gives the endpoints of the leader-and-followers id list. |
| `Cluster.Followers` | arangod/Cluster/RestClusterHandler.cpp:129-138 | The followers list is no longer than the health object and never contains the leader. |
| `Cluster.ResolveEndpoints` | arangod/Cluster/RestClusterHandler.cpp:155-158 | The endpoint array has the same length as the id list. Element i is the directory's endpoint of id i. |
| `Cluster.FollowersMembership` | arangod/Cluster/RestClusterHandler.cpp:129-138 | An id is listed as a follower iff some health entry has that key, the key differs from the leader, and its `Status` is the string "GOOD". Non-string and non-GOOD statuses are dropped. |
| `Cluster.FollowersAppend` | arangod/Cluster/RestClusterHandler.cpp:129-138 | The followers of a concatenation of health entries are the followers of each part, in order. So the health object's iteration order is kept. |
| `Cluster.FollowersNoDuplicates` | arangod/Cluster/RestClusterHandler.cpp:129-138 | When the health object's keys are distinct, no follower is listed twice. |
| `Cluster.EndpointIdsShape` | arangod/Cluster/RestClusterHandler.cpp:117-142 | A leader slice that is not a string, or is the empty string, gives an empty list, which is not an error. With a non-empty leader L, element 0 is L. The rest is exactly the followers list: every later element differs from L and is the key of a health entry whose status is "GOOD". |
| `Cluster.SingleServerEndpoints` | arangod/Cluster/RestClusterHandler.cpp:102-158 | For GET endpoints on a failover single server with leader L: one agency read is made. The first endpoint is L's. The remaining endpoints are those of the followers, in order. |
| `Cluster.LeaderExample` | arangod/Cluster/RestClusterHandler.cpp:125-138 | Take leader L and health {L: GOOD, A: GOOD, B: BAD}. The id list is [L, A]: B is excluded and L is not repeated. |

## Left out

- Locking is not modelled (READ_LOCKER/WRITE_LOCKER on `_statusLock`). Each public operation is one atomic step. So interleavings, such as a status read during the unlocked join in `stop`, are not captured.
- Applier.ReplicationApplier.Start: the loop `while (!wait(10 * 1000));`, which waits for a previous worker's teardown, becomes the precondition that the termination flag is low. Thread launch is the parameter `threadStarted`. The source's quirk is kept: a failed launch leaves `active` true. Not executed, an observation from the source: `stop(resetError, false)` on a running applier leaves the flag raised, and a later `stop` or `shutdown` of the now-inactive applier keeps it raised. In `ReplicationApplier.cpp` the flag is lowered only in `start` after the spin loop and on the active paths of `stop` with join and of `shutdown`. So a `start` after `stop(_, false)` would spin forever unless code outside this file lowers the flag; the precondition hides this. The `hasStarted` polling is left out. So is the syncer built from `initialTick`, `useTick` and `barrierId` (the `TailingSyncer` and `ApplyThread::run`), which is outside the controller.
- Applier.ReplicationApplier.Stop and Applier.ReplicationApplier.Shutdown: the worker handle is a ghost boolean, and joining it is releasing it. `TRI_ASSERT(_thread)` is a debug-only check and is not a precondition. After a failed thread launch, `active` is true with no thread, so that assertion would fire in a debug build.
- Applier.ReplicationApplier.RemoveState: `ReplicationApplierState::reset` is not part of this model. The reset is taken to clear `active`, `preventStart`, `stopInitialSynchronization`, the last error and the progress message. The tick and statistics fields of the state are not modelled at all. The state file is a boolean, and the unlink result is a parameter.
- Applier.ReplicationApplier.Reconfigure: persisting the configuration (`storeConfiguration(true)`) is file I/O and is left out, including its possible failure. The coordinator check `TRI_ASSERT(!isCoordinator())` is debug-only.
- Applier.ReplicationApplier.SetErrorNoLock: logging is left out, including the rule that APPLIER_STOPPED is not logged. The error text of `TRI_errno_string` is an opaque function given to the constructor. Error and progress timestamps are not modelled.
- `persistState` and `toVelocyPack` are left out. They are file I/O and VelocyPack serialization, plus version and server-id strings.
- The accessors `autoStart`, `stopInitialSynchronization()`, `stopInitialSynchronization(bool)` and `configuration()`, the two `setError` overloads and `setProgress` are left out. Without locks, each is a read or write of one field, or the same as the `NoLock` variant. Note that `setError(int, char const*)` does not take the status lock: it calls `setErrorNoLock` directly and so writes the last error unlocked. The `std::string` overload does take the write lock.
- Applier.Wait: time is the list of sleep amounts. What each look at the termination flag sees is an input, the set of looks that find it raised. The model does not sleep. `sleepTime` is a `nat`; the source's `uint64_t` cannot wrap here, because it is only decreased when at least one chunk is left.
- Cluster: the agency communication (`sendTransactionWithFailover`, its 1.0 s timeout) is left out. So are VelocyPack slice navigation, the `ClusterInfo` and `ServerState` singletons and response generation. They are inputs, or the `Response` value.
- Cluster: a health slice that is not an object would make the source's iterator throw; the model's health object is always a list of entries. A missing `Status` and a non-string `Status` are both `None`. `TRI_ASSERT(AgencyCommManager::isEnabled())` is debug-only; the explicit flag check on the failover path is modelled.
- Cluster.HandleCommandEndpoints: for `generateError(Result(TRI_ERROR_FORBIDDEN, …))`, the HTTP status is derived from the error code. That mapping is not part of this model, and FORBIDDEN is taken as 403.
- Behaviour of the code that differs from what a reader might expect:
  - Every resolved id yields an endpoint. An id unknown to the directory is not skipped; the source pushes whatever `getServerEndpoint` returns.
  - The coordinator list keeps the order `getCurrentCoordinators` gives.
  - `shutdown` is not `stop(true, true)`: when active it does not set `stopInitialSynchronization`, and when inactive it changes nothing.
- `lib/V8/v8-globals.h` is not part of this model. It is V8 binding glue with no logic of its own.
