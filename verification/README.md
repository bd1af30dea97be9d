# Verified models of libpod

This project models the parts of libpod, the library that manages Podman's containers and pods, whose
correctness is an invariant over whole runs, and proves what they are meant to guarantee.

- **Dependency graph.** Building the graph of a list of containers, the search for cycles (Tarjan's
  strongly connected components, trimmed), and the recursive traversals that start and remove the containers of
  a graph. Modules `Digraphs`, `Containers`, `ContainerGraphs`, `CycleDetection`, `GraphBuilding`, `Traversals`,
  `StartTraversal`, `RemoveTraversal`, `DependencyCollection`.
- **State database.** The redundant buckets of the Bolt state as maps, its transactions as functions that yield
  the new database or nothing, and the operations as a class that works on a copy and commits or discards it.
  Modules `Databases`, `DatabaseInvariants`, `RecordInvariants`, `PodInvariants`, `DatabaseRuns`,
  `TransactionLaws`, `VolumeUsers`, `StoredGraphs`, `BoltStates`.
- **Exec sessions.** Their bookkeeping in the database, as separate writes with a crash possible between any two.
  Modules `ExecSessions`, `ExecApi`.
- **Lifecycle and restart policy.** The saved states of one container as a sequence of events, and the container's
  calls as a class whose saves follow those events whatever the runtime answers. Modules `Lifecycles`,
  `ContainerLifecycle`.
- **Joins.** What a reachable database guarantees to those who read it: graphs can be built, pods can be
  started and removed, and namespace walks end. Modules `StoredGraphs`, `PodOperations`, `NamespaceWalks`.
- **Transformations.** Port lists compressed to ranges and expanded again, and the resolution of a path to the
  mount it is on. Modules `PortSorting`, `PortRanges`, `KubePorts`, `Paths`, `JoinedPaths`,
  `PathResolution`.

Container, pod and session identifiers are of an abstract type that can only be compared, as are names. An optional
reference that the configuration spells as a possibly empty string is an `Option`. Iteration over a Go map or
over a bucket takes the keys in an arbitrary order.

What the model takes from its surroundings:

- A transaction is atomic, and a save of an existing container succeeds.
- A handle passed to a removal or a rewrite carries the stored configuration. A rewrite keeps the identity, the pod,
  the dependencies and the volumes of the container, and a rename names the current name as the old one
  (libpod/runtime_ctr.go:113-162).
- The outcome of each container's turn in a start or remove traversal is an input; a container gets one turn at most,
  so this is no restriction. A removal that reports no error has taken the container out of the state; one that
  reports an error may or may not have.
- A call on a container is one critical section, except where a stop releases the lock
  (libpod/container_internal.go:1302-1324): there the model splits the call, and anything may come between. The save
  of an error at the end of a call (libpod/container_api.go:86-101, 231-246) is part of its section, although the
  code takes the lock again without a sync.
- The runtime's answers and the exit file are arbitrary, which allows more than section "Start" of the OCI Runtime
  Specification does. The model counts the refusals that a container meets; a call that fails without one fails by its
  own checks. A container that is being removed is not mounted again, so preparing it fails
  (libpod/container_internal.go:2203).
- The join of a path to a root on the host, which follows links there, and the way identifiers are written are
  parameters.
- Nobody removes a container while another process holds its lock, and after a reboot no lock is held.

Five claims that one might expect are false of the code, and exact conditions take their place:

- That a container can be removed once no other depends on it. One that depends on itself passes the checks when it
  is added (`SelfDependentRun`), but can then never be removed on its own (`SelfDependentStays`, `RemovableIff`), and
  graph traversals never reach it: the claims about traversals say so through `Blocked`.
- That the users of a volume are the containers that name it. Removing a container leaves its entries in the volumes' buckets, because the deletion is guarded by the wrong
  condition (libpod/boltdb_state_internal.go:964; `WithdrawVolumes`). All along a run the users reported are exact if
  and only if no added container revives a stale entry (`ExactIffNoStaleEntry`), so they are if container IDs are
  never reused (`UsersOfRun`); otherwise they need not be (`ReuseBreaksExactness`).
- That a registered exec session is in its container's saved state. The state's operation that removes all containers
  of a pod at once leaves their sessions registered, so a container added later under the same ID has a registered
  session that its saved state does not know (`ReuseLosesSession`, `SessionRun`). All along a run the sessions are
  recorded if and only if no container is added under an ID that a session is still registered for
  (`RecordedIffNoStaleSession`). This is a fact about the state's interface: the only caller of that operation
  (libpod/runtime_pod_common.go:168) removes each member with its sessions first, and is reached only if the pod's
  graph cannot be built, which `GraphOfPod` excludes.
- That a saved state that says Created, Running, Paused or Stopping shows no trace of an exit. A cleanup of a container
  without a PID namespace of its own may save what the runtime reported after a failed kill
  (libpod/container_api.go:788-800, libpod/oci_conmon_common.go:372-384). The claim holds in every life of a container
  if and only if the container has a PID namespace of its own (`SoundIffPidNamespace`, `RevivalBreaksClean`).
- That the restart policy leaves a container alone once its user has stopped it. For the same reason it need not
  (`StopIsOverridden`). It does, until the next initialization or reboot, if and only if no restart was prepared when
  the stop was saved (`StopHoldsIff`): with a PID namespace of its own, always (`EveryStopHolds`).

Also, the mount point is trimmed off a path as a string (libpod/container_path_resolution.go:38). A path that starts
with the characters of the mount point loses them even if they end within a component (`TrimmedComponents`,
`PathOfInputs`). And a list of all 65536 ports, each mapped to itself, makes one range whose 16-bit length wraps around to 0, and
expands to nothing (`AllPortsAreLost`); `RoundTripIff` shows that this and port numbers of more than 16 bits are the only ways to lose
ports.

An operation of the state that only writes what its transaction says has no row below: its method is proved equal to the
transaction, and the rows name what the transactions keep.

## Model

| member | source | states |
|---|---|---|
| `Containers.Dependencies` | libpod/container.go:482-524 | lists a container exactly if it is one whose IPC, mount, network, PID, user, UTS or cgroup namespace is joined, or a generic dependency, and lists each once |
| `Digraphs.ReachesByWalk` | libpod/container_graph.go:97-191 | the reachability that all claims about graphs use is the existence of a walk along edges |
| `CycleDetection.DetectCycles` | libpod/container_graph.go:97-191 | terminates on every finite graph and every order of nodes, never returns an internal error, and reports a cycle exactly when two distinct nodes reach each other |
| `GraphBuilding.BuildContainerGraph` | libpod/container_graph.go:41-92 | fails exactly when a dependency is not in the list or two containers depend on each other; otherwise both edge lists, the entry points for starting and those for removing spell out the configured dependencies |
| `StartTraversal.StartRun.StartNode` | libpod/container_graph.go:195-283 | whatever each start returns, a call keeps the order of turns, the spread of errors to dependents and the marks of nodes dealt with, and forgets nobody whose wait is over |
| `StartTraversal.StartAll` | libpod/container_internal.go:883-886 | terminates; who is visited, who has an error and who had a turn is told by the graph and the failures alone; turns come once each and after those of all dependencies; every error recorded is that of the node's own turn or of a failed dependency. Without restart every container that had a turn and no error runs in the end, init containers aside, and none that ran already is started; with restart each is restarted unless it is paused or its state unknown |
| `StartTraversal.EachStartedOnce` | libpod/container_graph.go:201-283 | no container is started twice; one is started exactly when nothing it needs failed or depends on itself, its own checks pass, it is no init container, and it is not running or, for a restart, neither paused nor of unknown state |
| `Traversals.EveryoneVisited` | libpod/container_graph.go:216-230 | without self-dependencies, every node is visited |
| `Traversals.TurnAfterAwaited` | libpod/container_graph.go:216-230 | a node's turn comes after the turns of all it waits for, directly or not, and none of those has an error |
| `Traversals.FailureClosesUpwards` | libpod/container_graph.go:201-214 | everyone who waits for a failed node, directly or not, ends with an error and has no turn |
| `RemoveTraversal.RemoveRun.RemoveNode` | libpod/container_graph.go:291-374 | with the branch for failed dependents falling through as in the code, a call removes a node at most once, only with all dependents gone, and keeps all traversal invariants |
| `RemoveTraversal.ReadyToRemove` | libpod/container_graph.go:322-346 | a node whose dependents were all visited without error finds none of them in the state: the check for remaining dependents never fires there |
| `RemoveTraversal.RemoveAll` | libpod/runtime_pod_common.go:221-223 | terminates; the outcome is told by the graph and the failures; removals are tried once each, after those of all dependents, and only with all dependents gone; a turn tries the removal unless its sync or its save for the pod fails, and the container is gone unless the removal was not tried or left it there |
| `RemoveTraversal.PresentStaysClosed` | libpod/container_graph.go:291-374 | whatever failed, no container is left without one that it depends on |
| `RemoveTraversal.RemovedAfterDependents` | libpod/container_graph.go:312-346 | a container is removed after everything that depends on it, directly or not, is gone |
| `RemoveTraversal.GoneUnlessFailed` | libpod/container_graph.go:348-374 | a container that is still there, or one that depends on it, failed to be removed or depends on itself |
| `DependencyCollection.Collector.GetAllDependencies` | libpod/container_internal.go:908-934 | adds to the shared map only what is reached through containers that are not running, together with all that it needs; fails only if a dependency in reach does not load |
| `DependencyCollection.CollectDependencies` | libpod/container_internal.go:852-855 | terminates on every snapshot, cyclic or not; collects exactly the containers reached by one dependency or more with none after the origin running, which is the least set of containers that, once started, leaves nobody in it nor the origin without a dependency; fails exactly when one that is looked at does not load |
| `BoltStates.EnterDependencies` | libpod/boltdb_state_internal.go:735-766 | fails exactly when a dependency is missing or in another pod, and otherwise enters the container with every dependency |
| `BoltStates.EnterVolumes` | libpod/boltdb_state_internal.go:775-791 | fails exactly when a volume is missing, and otherwise enters the container with every volume |
| `BoltStates.WithdrawDependencies` | libpod/boltdb_state_internal.go:921-949 | withdraws the container from every dependency that still exists |
| `BoltStates.WithdrawVolumes` | libpod/boltdb_state_internal.go:951-969 | leaves every volume's entries as they are, whatever they are |
| `BoltStates.BoltState.AddContainer` | libpod/boltdb_state_internal.go:580-796 | succeeds exactly when the transaction can, and leaves the database as the transaction does, or unchanged |
| `BoltStates.BoltState.RemoveContainer` | libpod/boltdb_state_internal.go:801-972 | succeeds exactly when the container exists, is in its pod, has no exec sessions and no dependents; leaves the database as the transaction does, or unchanged |
| `BoltStates.BoltState.SafeRewriteContainerConfig` | libpod/boltdb_state.go:1858-1966 | rewrites the configuration, and renames in all registries and in the pod, or leaves the database unchanged |
| `BoltStates.RemoveMembers` | libpod/boltdb_state.go:3206-3250 | fails exactly when a member is missing or has a dependent outside the pod, and otherwise removes exactly the members with their names |
| `BoltStates.BoltState.RemovePodContainers` | libpod/boltdb_state.go:3151-3271 | removes all members at once and empties the pod, leaving exec registry and volumes alone, or leaves the database unchanged |
| `BoltStates.BoltState.RemoveVolume` | libpod/boltdb_state.go:2501-2590 | succeeds exactly when the volume exists and every container entered for it is gone; where the entries are exact, when no container names the volume; it is then in neither bucket |
| `BoltStates.BoltState.VolumeInUse` | libpod/boltdb_state.go:2892-2955 | lists the live containers entered; in a consistent state all that name the volume, and exactly these if the entries are exact |
| `BoltStates.BoltState.ContainerInUse` | libpod/boltdb_state.go:885-936 | in a consistent state, lists exactly what a scan of all configurations finds |
| `BoltStates.BoltState.RemoveContainerExecSessions` | libpod/boltdb_state.go:1737-1807 | removes all sessions of the container from both places unless one is registered for another container |
| `BoltStates.BoltState.Refresh` | libpod/boltdb_state.go:151-421 | forgets all exec sessions, and removes IDs of neither a container nor a pod with their names |
| `BoltStates.BoltState.GraphOfAllContainers` | libpod/boltdb_state.go:940-991 | in a consistent state, the dependency graph of all containers is always built |
| `BoltStates.BoltState.GraphOfPod` | libpod/boltdb_state.go:2342-2405 | in a consistent state, the dependency graph of a pod's containers is always built |
| `DatabaseInvariants.AddKeepsConsistent` | libpod/boltdb_state_internal.go:580-796 | adding keeps the registries inverse, dependencies closed, mirrored, within the pod and without cycles, membership agreeing in three places, volumes entered, and exec buckets registered |
| `DatabaseInvariants.RemoveKeepsConsistent` | libpod/boltdb_state_internal.go:801-972 | removing keeps all of these |
| `RecordInvariants.RewriteKeepsConsistent` | libpod/boltdb_state.go:1858-1966 | a rewrite or rename by its callers' rules keeps all of these |
| `RecordInvariants.RefreshFindsNoDanglingID` | libpod/boltdb_state.go:242-262 | in a consistent database the refresh succeeds and finds no dangling ID |
| `RecordInvariants.AddVolumeKeepsVolumes` | libpod/boltdb_state.go:2409-2498 | adding a volume keeps that every named volume of a live container exists with the container entered, and changes nothing else |
| `RecordInvariants.RemoveVolumeKeepsVolumes` | libpod/boltdb_state.go:2542-2590 | so does removing one: a volume that a live container names is never removed |
| `RecordInvariants.AddExecKeepsExecBuckets` | libpod/boltdb_state.go:1547-1582 | a new session keeps that every session in an exec bucket is registered for that container, and leaves all configurations alone |
| `RecordInvariants.RemoveExecKeepsExecBuckets` | libpod/boltdb_state.go:1645-1682 | so does removing a session |
| `PodInvariants.AddPodKeepsRegistries` | libpod/boltdb_state.go:3007-3054 | adding a pod keeps the ID and name registries inverse and both listings exact |
| `PodInvariants.AddPodKeepsMembership` | libpod/boltdb_state.go:3022-3041 | adding a pod gives it no member and takes none from another |
| `PodInvariants.RemovePodKeepsRegistries` | libpod/boltdb_state.go:3126-3139 | removing an empty pod keeps the registries inverse and both listings exact |
| `PodInvariants.RemovePodKeepsMembership` | libpod/boltdb_state.go:3108-3139 | the pod of a live container is never removed |
| `PodInvariants.PodCanAlwaysGo` | libpod/boltdb_state.go:3206-3231 | in a consistent database removing all containers of a pod never fails for dependents outside |
| `PodInvariants.RemovePodContainersKeepsConsistent` | libpod/boltdb_state.go:3151-3271 | removing all containers of a pod keeps the database consistent |
| `DatabaseRuns.StepKeepsConsistent` | libpod/boltdb_state.go:151-3324 | every operation, committed or rolled back, keeps the database consistent |
| `DatabaseRuns.RunsAreConsistent` | libpod/boltdb_state.go:151-3324 | every database reached by any sequence of operations is consistent |
| `TransactionLaws.AddSucceedsIff` | libpod/boltdb_state_internal.go:646-791 | in a consistent database a container can be added if and only if no container or pod has its ID or name, its pod is the one given and exists, all others that it names as dependencies are stored in that pod, and its volumes exist |
| `TransactionLaws.AddThenRemove` | libpod/boltdb_state_internal.go:801-972 | a container that does not depend on itself can be removed right after it was added, which restores the database but for the entries in its volumes' buckets |
| `TransactionLaws.RenameSucceedsIff` | libpod/boltdb_state.go:1886-1912 | a stored container can be renamed if and only if no other container and no pod has the name |
| `TransactionLaws.RenameAndBack` | libpod/boltdb_state.go:1858-1966 | renaming and renaming back restores the database |
| `TransactionLaws.AddPodSucceedsIff` | libpod/boltdb_state.go:3005-3030 | a pod can be added if and only if no container or pod has its ID or name |
| `TransactionLaws.AddPodThenRemove` | libpod/boltdb_state.go:3007-3139 | removing a pod right after it was added restores the database |
| `TransactionLaws.RemovePodSucceedsIff` | libpod/boltdb_state.go:3106-3124 | a pod can be removed if and only if no container names it as its pod |
| `TransactionLaws.EmptiedPod` | libpod/boltdb_state.go:3206-3271 | emptying a pod takes the containers that name it as their pod, with their IDs and names, and leaves every other record, ID and name as it was |
| `TransactionLaws.AddVolumeThenRemove` | libpod/boltdb_state.go:2409-2590 | removing a volume right after it was added restores the database |
| `TransactionLaws.AddExecThenRemove` | libpod/boltdb_state.go:1547-1682 | removing an exec session right after it was registered restores the database |
| `TransactionLaws.RefreshForgetsSessions` | libpod/boltdb_state.go:151-421 | in a consistent database the refresh succeeds, forgets all exec sessions in all three places, and changes nothing else |
| `StoredGraphs.DependentsAreExact` | libpod/boltdb_state_internal.go:759-765 | a container's dependents bucket is the exact inverse of the configured dependencies |
| `StoredGraphs.RemovableIff` | libpod/boltdb_state_internal.go:871-904 | a container can be removed on its own exactly when it has no exec session and nothing live depends on it |
| `StoredGraphs.SelfDependentStays` | libpod/boltdb_state_internal.go:735-766 | a container that names itself can never be removed on its own |
| `StoredGraphs.SelfDependentRun` | libpod/boltdb_state_internal.go:702-766 | a run that stores such a container, whose removal then fails |
| `StoredGraphs.SelfContainedBuilds` | libpod/container_graph.go:56-91 | in a consistent database, any set of containers closed under dependencies has a dependency graph |
| `VolumeUsers.UsersIncludeNaming` | libpod/boltdb_state.go:2931-2943 | the users reported always include every live container that names the volume |
| `VolumeUsers.VolumeRemovableIff` | libpod/boltdb_state.go:2542-2590 | where the users are exact, a volume can be removed if and only if no container names it, whoever used it before; nothing else changes |
| `VolumeUsers.AddKeepsExactIff` | libpod/boltdb_state_internal.go:775-791 | adding a container keeps the reported users exact if and only if its ID left no entry at a volume it does not name |
| `VolumeUsers.OtherStepsKeepExact` | libpod/boltdb_state_internal.go:951-969 | no other operation makes the reported users inexact |
| `VolumeUsers.ExactIffNoStaleEntry` | libpod/boltdb_state_internal.go:951-969 | all along a run the users reported are exact if and only if no added container has an entry left at a volume it does not name |
| `VolumeUsers.UsersOfRun` | libpod/boltdb_state.go:2931-2943 | if container IDs are never reused, the users reported are exactly the live containers that name the volume, in every reachable database |
| `VolumeUsers.VolumeRemovableInRun` | libpod/boltdb_state.go:2542-2590 | in such a run a volume can be removed exactly when no container names it, and is then in neither bucket |
| `VolumeUsers.ReuseBreaksExactness` | libpod/boltdb_state.go:2542-2571 | a run with a reused ID after which an unused volume is reported as used and cannot be removed |
| `ExecSessions.EventKeepsInv` | libpod/container_exec.go:218-225 | with a crash possible between any two writes, every event keeps each registered session of a live container in its exec bucket and its saved state, for any interleaving with work on other containers |
| `ExecSessions.AddKeepsRecordedIff` | libpod/boltdb_state_internal.go:697-733 | adding a container keeps this if and only if no session is registered for its ID |
| `ExecSessions.UnregisterAllKeepsRecorded` | libpod/boltdb_state.go:1776-1802 | in order, unregistering all sessions of a container cannot fail and leaves none registered for it |
| `ExecSessions.RunsAreRecorded` | libpod/container_exec.go:697-705 | over every run in which no container is added under an ID that a session is still registered for, with crashes anywhere and pods emptied at any time, every registered session of a live container is in its exec bucket and its saved state |
| `ExecSessions.RecordedIffNoStaleSession` | libpod/boltdb_state_internal.go:697-733 | the condition is exact: the sessions are recorded all along a run if and only if the run meets it |
| `ExecSessions.NeverReusedIsRecorded` | libpod/container_exec.go:218-225 | every run that never reuses a container ID meets it |
| `ExecSessions.QuietRunsHaveNoOrphans` | libpod/boltdb_state.go:3206-3250 | a run in which no pod is emptied at once while a member has a session meets it, and in it every registered session belongs to a live container |
| `ExecSessions.ReuseLosesSession` | libpod/boltdb_state.go:3206-3250 | emptying a pod at once and adding a member again leaves a registered session that the saved state does not know |
| `ExecSessions.SessionRun` | libpod/container_exec.go:218-225 | a run that reaches such a pod |
| `ExecApi.LockedContainer.ExecCreate` | libpod/container_exec.go:157-230 | saves, then registers; after any number of these writes the bookkeeping is in order |
| `ExecApi.LockedContainer.ExecRemove` | libpod/container_exec.go:697-705 | unregisters, then saves; after any number of these writes the bookkeeping is in order |
| `ExecApi.LockedContainer.RemoveAllExecSessions` | libpod/container_exec.go:1064-1074 | unregisters and forgets all sessions, with the bookkeeping in order although the save is left to the caller |
| `ExecApi.LockedContainer.RemoveForGood` | libpod/runtime_ctr.go:778-798 | unregisters all, then saves; after any number of these writes the bookkeeping is in order |
| `ExecApi.LockedContainer.DropLeftovers` | libpod/container_internal.go:1056-1094 | after any number of its writes the bookkeeping is in order, and in the end no session is saved or registered |
| `PodOperations.StartPod` | libpod/pod_api.go:83-112 | in a consistent state where no container names itself, a pod with containers always has an entry point, and starting it visits every container, each after all it depends on; those that had a turn and no error then run |
| `PodOperations.RemovePodMembers` | libpod/runtime_pod_common.go:203-223 | in such a state removing a pod visits every container, and what is left needs nothing that is gone |
| `NamespaceWalks.WalkEnds` | libpod/container.go:534-544 | ports and network setting are those of the container at the end of the network namespace walk, the host name that of the end of the UTS walk; the end joins no namespace of the kind, and is also the end of the walk from the container joined |
| `NamespaceWalks.HostnameAtEnd` | libpod/container.go:673-691 | the host name is the one configured at the end of the UTS walk, or else the first twelve characters of the ID there; the program crashes exactly on an ID of eleven |
| `NamespaceWalks.EndIsUnique` | libpod/container.go:673-691 | a walk has one end at most |
| `NamespaceWalks.WalksOfRun` | libpod/container.go:1176-1185 | in every reachable database where no container names itself, the three walks terminate, no look-up fails, and they give what the one end has configured |
| `NamespaceWalks.GetRootNetNsDepCtr` | libpod/container_internal_common.go:1695-1720 | on any database: terminates, reports a loop exactly when the walk comes back, a failed look-up exactly when it leads nowhere, and otherwise gives the end of the walk |
| `NamespaceWalks.LoopsAreSelfReferences` | libpod/container_internal_common.go:1699-1702 | in a database without cycles a loop is found exactly when the walk reaches a container that joins its own namespace |
| `NamespaceWalks.RootOfRun` | libpod/container_internal_common.go:1695-1720 | in every reachable database where no container names itself, the root is found and joins no other network namespace |
| `Lifecycles.EventKeepsSoundIff` | libpod/container_internal.go:343-363 | every event but a report after a failed kill keeps that a state saved as Created, Running, Paused or Stopping is not Exited, has exit code 0 and no policy match, and that a user's stop excludes a match; a report does if and only if the state shows no trace of an exit or the report is that the container stopped |
| `Lifecycles.RunsAreSound` | libpod/container_internal.go:1064-1082 | this holds of every saved state of every container with a PID namespace of its own |
| `Lifecycles.SoundIffPidNamespace` | libpod/container_api.go:788-800 | it holds in all lives of a container if and only if the container has one |
| `Lifecycles.RevivalBreaksClean` | libpod/container_api.go:797-800 | a life without one in which it fails: a paused container is killed without an exit file appearing, and a later cleanup saves it as paused again |
| `Lifecycles.StoppedMeansNoPolicyRestart` | libpod/container_internal.go:1297-1345 | in any run, once a stop or kill by the user is saved while the policy has no restart prepared, it does not restart the container before the next initialization or reboot |
| `Lifecycles.StopHoldsIff` | libpod/container_internal.go:231-255 | the condition is exact: with a policy match and retries left when the stop is saved, some continuation has a policy restart |
| `Lifecycles.EveryStopHolds` | libpod/container_api.go:279-301 | with a PID namespace of its own, no user's stop is ever overridden by the policy before the next initialization or reboot |
| `Lifecycles.StopIsOverridden` | libpod/container_api.go:771-800 | a life without one in which the policy restarts a container that its user has stopped |
| `Lifecycles.RestartsAreCounted` | libpod/container_internal.go:240-253 | in every run the counter equals the policy restarts since its last reset, and with on-failure and a limit never exceeds the limit |
| `Lifecycles.PolicyRestartIff` | libpod/container_internal.go:231-255 | over the events of every life with a PID namespace of its own: the policy can restart the container if and only if its last exit was noticed by a sync, was not preceded by a stop or kill of the user, has not been followed by an initialization, a reboot or a removal, and the policy is always, or unless-stopped, or on-failure with an exit code other than 0 and fewer restarts since the last reset than the retries allowed |
| `Lifecycles.CleanExitIsFinal` | libpod/container_internal.go:240-247 | with on-failure no policy restart has an exit with code 0 as the last exit before it |
| `Lifecycles.ExitDecides` | libpod/container_internal.go:231-255 | of any container that is running or paused and not stopped by its user, once a sync has noticed its exit the policy can restart it if and only if it is always, or unless-stopped, or on-failure with a code other than 0 and retries left |
| `Lifecycles.InitStartsAfresh` | libpod/container_internal.go:1064-1082 | after an initialization that resets the counter the same is decided by the next exit alone, whatever happened before |
| `ContainerLifecycle.Container.CheckExitFile` | libpod/container_internal.go:2335-2364 | changes the state only if it is live and an exit file is there, to stopped with exactly the code that the file has; fails exactly if the file cannot be accessed or read, or its code not recorded |
| `ContainerLifecycle.Container.SyncContainer` | libpod/container_internal.go:337-371 | an exit file of a live container is saved, with its code and with the policy match that status, policy and the user's stop call for; otherwise nothing changes |
| `ContainerLifecycle.Container.WaitForExitFileAndSync` | libpod/container_internal.go:171-200 | saves the code that the exit file has or, if none appeared in time, Stopped with exit code -1, and nothing else |
| `ContainerLifecycle.Container.WaitForConmonToExitAndSave` | libpod/container_internal.go:1348-1371 | on success the copy is saved as it was or, if there is an exit file, with the code in it |
| `ContainerLifecycle.Container.InitContainer` | libpod/container_internal.go:1013-1109 | saves a state without trace of an earlier exit or stop, the counter kept only on request, or changes nothing |
| `ContainerLifecycle.Container.CleanupRuntime` | libpod/container_internal.go:1114-1154 | Stopped becomes Exited and Created becomes Configured, other states stay |
| `ContainerLifecycle.Container.EnsureInitialized` | libpod/container_internal.go:816-827 | a container that is not in the runtime is initialized there, with its counter reset unless a policy restarts it |
| `ContainerLifecycle.Container.StartProcess` | libpod/container_internal.go:1223-1263 | saves Running exactly on success |
| `ContainerLifecycle.Container.StopBegin` | libpod/container_internal.go:1297-1304 | saves Stopping and the user's stop before the lock is released |
| `ContainerLifecycle.Container.StopEnd` | libpod/container_internal.go:1308-1346 | syncs again, leaves alone what others made of the container in between, and changes nothing if it is gone |
| `ContainerLifecycle.Container.HandleRestartPolicy` | libpod/container_internal.go:260-319 | restarts at most once and only if the state calls for it, and counts every attempt before making it; if the state calls for a restart it fails only at a refusal from outside or an unknown state |
| `ContainerLifecycle.Container.InitCall` | libpod/container_api.go:33-71 | on success the container is Created, sound, with the counter at 0; it fails only at a refusal from outside or in a status that it is not for |
| `ContainerLifecycle.Container.StartCall` | libpod/container_api.go:85-117 | on success the container is Running, and sound if it was; it fails only at a refusal from outside or in a status that it is not for; no policy restart is involved |
| `ContainerLifecycle.Container.InitAndStart` | libpod/container_internal.go:1175-1220 | on success the container is Running; it fails only at a refusal from outside or if the container is paused, being removed or of unknown state |
| `ContainerLifecycle.Container.StopCallBegin` | libpod/container_api.go:249-265 | saves Stopping and the user's stop for a created, running or stopping container unless the sync fails, and for no other |
| `ContainerLifecycle.Container.RestartCallEnd` | libpod/container_internal.go:1420-1485 | whatever others did while the lock was released, the container runs in the end, or something outside refused, or it is being removed; only allowed events were saved |
| `ContainerLifecycle.Container.KillCall` | libpod/container_api.go:269-304 | on success a SIGKILL has saved the user's stop; other signals record it in memory and save nothing; it fails only at a refusal from outside, at a failed kill, or if the container is not live |
| `ContainerLifecycle.Container.PauseCall` | libpod/container_api.go:476-494 | pauses a running container unless something outside refuses, and no other |
| `ContainerLifecycle.Container.UnpauseCall` | libpod/container_api.go:497-512 | unpauses a paused container unless something outside refuses, and no other |
| `ContainerLifecycle.Container.CleanupCall` | libpod/container_api.go:753-813 | at most one policy restart, only if the synced state calls for it, and on success if it does; otherwise the container leaves the runtime unless something outside refuses, and at most the report of a failed kill is saved beside it |
| `ContainerLifecycle.Container.RemoveCallBegin` | libpod/runtime_ctr.go:697-748 | a live container is killed or stopped before it is removed; without force a live container is refused unless it is an infra container |
| `ContainerLifecycle.Container.SavedIsSound` | libpod/container_internal.go:231-319 | whatever calls were made, the saves are a life of the container: the counter counts the restarts within the retries, and with a PID namespace of its own the saved state is sound |
| `PortSorting.BeforeTotal` | libpod/networking_common.go:710-724 | two port mappings that differ are ordered, one way only |
| `PortSorting.LexLessIff` | libpod/networking_common.go:710-724 | strings are ordered by their first difference, a proper prefix first |
| `PortSorting.SortedByFields` | libpod/networking_common.go:710-724 | sorted ports ascend by host IP, within one by protocol, then by host port, and then by container port |
| `PortSorting.SortedSorts` | libpod/networking_common.go:670-673 | sorting puts the ports in order and keeps them all |
| `PortSorting.OneWayToSort` | libpod/networking_common.go:670-673 | however the ports are sorted, the result is the same |
| `PortRanges.OcicniPortsToNetTypesPorts` | libpod/networking_common.go:663-703 | sorts the ports in place and gives the compression of the sorted list, with all conversions wrapping around |
| `PortRanges.RoundTripIff` | libpod/networking_common.go:675-703 | expanding the ranges gives back the list, duplicates and all, if and only if all ports have 16 bits and no run of all 65536 ports occurs |
| `PortRanges.RoundTripForPositivePorts` | libpod/networking_common.go:675-703 | so it does for all lists of ports from 1 to 65535 |
| `PortRanges.RangesAreMaximal` | libpod/networking_common.go:684-701 | no two consecutive ranges could be merged |
| `PortRanges.RangesAreGood` | libpod/networking_common.go:684-701 | no range wraps around |
| `PortRanges.RangesHoldPorts` | libpod/networking_common.go:684-701 | a mapping is in the list if and only if one of the ranges has its IP and protocol and holds its host port and its container port at the same offset |
| `PortRanges.AllPortsAreLost` | libpod/networking_common.go:684-690 | all 65536 ports, which are in order, make one range of length 0, which expands to nothing |
| `KubePorts.PortMappingToContainerPort` | libpod/kube.go:802-834 | every port of every range once for every protocol, or failure at an unknown protocol with the ports up to there |
| `KubePorts.FailsIff` | libpod/kube.go:809-821 | the conversion fails if and only if some part of some mapping's protocol list is, in upper case, none of TCP, UDP and SCTP |
| `KubePorts.SplitIsUndone` | libpod/kube.go:805 | the protocols of a mapping are what its commas separate |
| `KubePorts.KubeRoundTrip` | libpod/kube.go:802-834 | old ports converted to ranges and then to container ports are the same ports one by one, with host IP, container port and host port in their places; host ports are 0 for a service, and a protocol is in upper case or left out if it is TCP |
| `Paths.ComponentsOfRender` | libpod/container_path_resolution.go:39-40 | a cleaned path splits into the components it was written from |
| `Paths.DotsLeaveNoTrace` | libpod/container_path_resolution.go:39-40 | cleaning a rooted path drops "." and empty components, and lets ".." undo the component before it |
| `JoinedPaths.RootIsItsParent` | libpod/container_path_resolution.go:39-40 | a ".." at the root stays there |
| `JoinedPaths.ComponentsOfJoin` | libpod/container_path_resolution.go:21 | the components of a path joined to a rooted one are those of walking on from there |
| `JoinedPaths.TrimmedComponents` | libpod/container_path_resolution.go:38 | trimming the path of an ancestor drops its components; a path that does not start with these characters keeps its components; otherwise the component in which they end is cut, and what is left of it comes first |
| `Paths.DirOfRender` | libpod/container_path_resolution.go:102 | the directory of a cleaned path is the path without its last component |
| `PathResolution.FoundVolume` | libpod/container_path_resolution.go:111-120 | the first volume whose cleaned destination is the path, if there is one |
| `PathResolution.FoundMount` | libpod/container_path_resolution.go:155-167 | the first bind mount whose cleaned destination is the path, if there is one |
| `PathResolution.PathAbsComponents` | libpod/container_path_resolution.go:15-24 | an absolute path keeps its components, and a relative one is walked from the working directory, which is walked from the root |
| `PathResolution.PathUnderWorkingDir` | libpod/container_path_resolution.go:15-24 | under the working directory with the components a, the relative path with the components b is the path with the components a and then b |
| `PathResolution.PathOfInputs` | libpod/container_path_resolution.go:36-39 | from mount point, working directory and path, the components of the path inside the container and of the path on the container's root |
| `PathResolution.ResolvePath` | libpod/container_path_resolution.go:34-107 | terminates; picks the deepest volume or bind mount whose destination is the path or an ancestor, a volume before a mount as deep and the first among equals, and joins what is left of the path to its root; falls back to the container root exactly when nothing covers the path; fails only if the chosen volume has no mount point or the join fails |
| `PathResolution.OneResolution` | libpod/container_path_resolution.go:51-106 | these conditions leave one resolution |

## Left out

- JSON encoding, the Bolt file, network and lock buckets, exit code buckets and logging: stored records are values.
- The kinds of errors that the state returns: an operation only succeeds or fails. In particular the look-up that chooses the error for an ID in use (libpod/boltdb_state_internal.go:674-681) is not modelled.
- The `valid` flags of handles, and the operations that refuse an invalid handle.
- The names kept as values in dependents buckets, which a rename leaves as they were; nothing reads them.
- RewriteContainerConfig, RewritePodConfig and RewriteVolumeConfig: documented as dangerous, with rules for callers that are not visible.
- The SQLite state, which keeps the same contract in another way.
- Checkpoint and restore: a restore sets Running without the resets of an initialization.
- Batched calls on containers, which keep the lock over several calls and sync only once.
- Collecting the anonymous volumes of removed containers, and the reset of a pod's infra container ID during removal, of which only a failing save is modelled.
- That startDependencies always builds its graph: running dependencies are skipped, so its list need not be closed.
- Persistence of a user's stop for signals other than SIGKILL, which the code does not save.
- A save that fails with the container still there, and a crash between the creation of a container in the runtime and the save that follows, during which shutdown is inhibited.
- isPathOnVolume and isPathOnMount, which ask the same questions without a hard answer.
- Health checks, attach, logs, events, networks, storage, SELinux, hooks and the generation of runtime specifications: calls to the outside with no invariant of their own.
- Inspect output, the rest of the Kubernetes YAML, FreeBSD and stubs for other platforms.
