/** The container state database: its buckets, its transactions as functions, and what every reachable
    database keeps. A transaction yields the new database, or None if it fails and is rolled back. */
module Databases {
  import opened Digraphs
  import opened Containers

  /** One container's bucket. `dependents` are the keys of its dependencies bucket (who depends on it), `execs`
      those of its exec bucket, and `savedExecs` those of the exec sessions in its saved state. */
  datatype ContainerRecord = ContainerRecord(
    config: ContainerConfig,
    podID: Option<Id>,
    dependents: set<Id>,
    execs: set<Id>,
    savedExecs: set<Id>)

  datatype PodRecord = PodRecord(name: Name, containers: map<Id, Name>)

  /** The top-level buckets. `vols` maps a volume to the containers entered as using it, and `execs` an exec
      session to its container. */
  datatype Database = Database(
    ids: map<Id, Name>,
    names: map<Name, Id>,
    allCtrs: map<Id, Name>,
    allPods: map<Id, Name>,
    ctrs: map<Id, ContainerRecord>,
    pods: map<Id, PodRecord>,
    vols: map<Name, set<Id>>,
    allVols: set<Name>,
    execs: map<Id, Id>)

  const EmptyDatabase := Database(map[], map[], map[], map[], map[], map[], map[], {}, map[])

  function Deps(db: Database, c: Id): set<Id>
    requires c in db.ctrs
  {
    DependencySet(db.ctrs[c].config)
  }

  /** The dependency relation of the stored containers. */
  function Stored(db: Database): (g: Digraph)
    ensures g.Keys == db.ctrs.Keys
  {
    map c | c in db.ctrs :: Deps(db, c)
  }

  // ---------------------------------------------------------------- invariants

  /** What the registries say about container `c`. */
  ghost predicate CtrRegistered(db: Database, c: Id) {
    && c in db.ctrs && c !in db.pods
    && db.ctrs[c].config.id == c
    && c in db.ids && db.ids[c] == db.ctrs[c].config.name
    && c in db.allCtrs && db.allCtrs[c] == db.ids[c]
    && c !in db.allPods
  }

  ghost predicate PodRegistered(db: Database, p: Id) {
    && p in db.pods && p !in db.ctrs
    && p in db.ids && db.ids[p] == db.pods[p].name
    && p in db.allPods && db.allPods[p] == db.ids[p]
    && p !in db.allCtrs
  }

  /** The ID and name registries are inverse to each other; their IDs are the disjoint union of the
      containers and the pods, and the two listings are the restrictions to either. */
  ghost predicate Registries(db: Database) {
    && (forall i {:trigger db.ids[i]} :: i in db.ids ==> db.ids[i] in db.names && db.names[db.ids[i]] == i)
    && (forall n {:trigger db.names[n]} :: n in db.names ==> db.names[n] in db.ids && db.ids[db.names[n]] == n)
    && (forall i {:trigger i in db.ids} :: i in db.ids ==> i in db.ctrs || i in db.pods)
    && (forall c {:trigger c in db.ctrs} :: c in db.ctrs ==> CtrRegistered(db, c))
    && (forall p {:trigger p in db.pods} :: p in db.pods ==> PodRegistered(db, p))
    && (forall c {:trigger c in db.allCtrs} :: c in db.allCtrs ==> c in db.ctrs)
    && (forall p {:trigger p in db.allPods} :: p in db.allPods ==> p in db.pods)
  }

  /** Dependencies exist, stay within the pod, and are mirrored in the dependents bucket. */
  ghost predicate DepStored(db: Database, c: Id, d: Id)
    requires c in db.ctrs
  {
    d in db.ctrs && db.ctrs[d].podID == db.ctrs[c].podID && c in db.ctrs[d].dependents
  }

  ghost predicate Dependents(db: Database) {
    && (forall c, d {:trigger d in Deps(db, c)} :: c in db.ctrs && d in Deps(db, c) ==> DepStored(db, c, d))
    && (forall c, d {:trigger c in db.ctrs[d].dependents} ::
          d in db.ctrs && c in db.ctrs[d].dependents ==> c in db.ctrs && d in Deps(db, c))
  }

  /** No two stored containers depend on each other; a rank witnesses it. */
  ghost predicate Acyclic(db: Database) {
    exists rank: map<Id, nat> :: Ranked(Stored(db), rank)
  }

  /** The pod of a container in its configuration, in its bucket and in the pod's bucket agree, with its current name. */
  ghost predicate MemberOk(db: Database, c: Id) {
    && c in db.ctrs
    && db.ctrs[c].podID == db.ctrs[c].config.pod
    && (db.ctrs[c].podID.Some? ==>
          var p := db.ctrs[c].podID.value;
          p in db.pods && c in db.pods[p].containers && db.pods[p].containers[c] == db.ctrs[c].config.name)
  }

  ghost predicate Membership(db: Database) {
    && (forall c {:trigger c in db.ctrs} :: c in db.ctrs ==> MemberOk(db, c))
    && (forall p, c {:trigger c in db.pods[p].containers} ::
          p in db.pods && c in db.pods[p].containers ==> c in db.ctrs && db.ctrs[c].podID == Some(p))
  }

  ghost predicate Uses(db: Database, c: Id, v: Name) {
    c in db.ctrs && v in db.ctrs[c].config.namedVolumes
  }

  /** Every named volume of a container exists and has the container entered as a user. */
  ghost predicate Volumes(db: Database) {
    && db.allVols == db.vols.Keys
    && (forall c, v {:trigger Uses(db, c, v)} :: Uses(db, c, v) ==> v in db.vols && c in db.vols[v])
  }

  /** A session in a container's exec bucket is registered for that container. */
  ghost predicate ExecBuckets(db: Database) {
    forall c, s {:trigger s in db.ctrs[c].execs} ::
      c in db.ctrs && s in db.ctrs[c].execs ==> s in db.execs && db.execs[s] == c
  }

  ghost predicate Consistent(db: Database) {
    Registries(db) && Dependents(db) && Acyclic(db) && Membership(db) && Volumes(db) && ExecBuckets(db)
  }

  // ---------------------------------------------------------------- transactions

  /** The dependency of a new container can be entered: it exists, or is the container itself, and shares its pod. */
  predicate CanDependOn(db: Database, cfg: ContainerConfig, pod: Option<Id>, d: Id) {
    d == cfg.id || (d in db.ctrs && db.ctrs[d].podID == pod)
  }

  predicate CanAddContainer(db: Database, cfg: ContainerConfig, pod: Option<Id>) {
    && (pod.Some? ==> pod.value in db.pods)
    && cfg.id !in db.ids && cfg.id !in db.ctrs && cfg.name !in db.names
    && (forall d {:trigger CanDependOn(db, cfg, pod, d)} :: d in DependencySet(cfg) ==> CanDependOn(db, cfg, pod, d))
    && (forall v {:trigger v in cfg.namedVolumes} :: v in cfg.namedVolumes ==> v in db.vols)
  }

  function NewRecord(cfg: ContainerConfig, pod: Option<Id>): ContainerRecord {
    ContainerRecord(cfg, pod, if cfg.id in DependencySet(cfg) then {cfg.id} else {}, {}, {})
  }

  /** Enters or withdraws `c` as a dependent of everyone in `deps`. */
  function WithDependent(ctrs: map<Id, ContainerRecord>, deps: set<Id>, c: Id): (r: map<Id, ContainerRecord>)
    ensures r.Keys == ctrs.Keys
  {
    map d | d in ctrs :: if d in deps then ctrs[d].(dependents := ctrs[d].dependents + {c}) else ctrs[d]
  }

  function WithoutDependent(ctrs: map<Id, ContainerRecord>, deps: set<Id>, c: Id): (r: map<Id, ContainerRecord>)
    ensures r.Keys == ctrs.Keys
  {
    map d | d in ctrs :: if d in deps then ctrs[d].(dependents := ctrs[d].dependents - {c}) else ctrs[d]
  }

  function WithUser(vols: map<Name, set<Id>>, used: set<Name>, c: Id): (r: map<Name, set<Id>>)
    ensures r.Keys == vols.Keys
  {
    map v | v in vols :: if v in used then vols[v] + {c} else vols[v]
  }

  function WithMember(pods: map<Id, PodRecord>, pod: Option<Id>, c: Id, name: Name): (r: map<Id, PodRecord>) {
    if pod.Some? && pod.value in pods
    then pods[pod.value := pods[pod.value].(containers := pods[pod.value].containers[c := name])]
    else pods
  }

  function WithoutMember(pods: map<Id, PodRecord>, pod: Option<Id>, c: Id): (r: map<Id, PodRecord>) {
    if pod.Some? && pod.value in pods
    then pods[pod.value := pods[pod.value].(containers := pods[pod.value].containers - {c})]
    else pods
  }

  function AddContainerTx(db: Database, cfg: ContainerConfig, pod: Option<Id>): Option<Database> {
    if !CanAddContainer(db, cfg, pod) then None
    else Some(db.(
      ids := db.ids[cfg.id := cfg.name],
      names := db.names[cfg.name := cfg.id],
      allCtrs := db.allCtrs[cfg.id := cfg.name],
      ctrs := WithDependent(db.ctrs, DependencySet(cfg), cfg.id)[cfg.id := NewRecord(cfg, pod)],
      pods := WithMember(db.pods, pod, cfg.id, cfg.name),
      vols := WithUser(db.vols, Elems(cfg.namedVolumes), cfg.id)))
  }

  predicate CanRemoveContainer(db: Database, cfg: ContainerConfig, pod: Option<Id>) {
    && (pod.Some? ==> pod.value in db.pods && cfg.id in db.pods[pod.value].containers)
    && cfg.id in db.ctrs
    && db.ctrs[cfg.id].execs == {}
    && db.ctrs[cfg.id].dependents == {}
  }

  /** The entries of the container as a user of its volumes stay behind. */
  function RemoveContainerTx(db: Database, cfg: ContainerConfig, pod: Option<Id>): Option<Database> {
    if !CanRemoveContainer(db, cfg, pod) then None
    else Some(db.(
      ids := db.ids - {cfg.id},
      names := db.names - {cfg.name},
      allCtrs := db.allCtrs - {cfg.id},
      ctrs := WithoutDependent(db.ctrs - {cfg.id}, DependencySet(cfg), cfg.id),
      pods := WithoutMember(db.pods, pod, cfg.id)))
  }

  /** What a rewrite of the configuration must leave alone. */
  ghost predicate KeepsReferences(cfg: ContainerConfig, newCfg: ContainerConfig) {
    && newCfg.id == cfg.id && newCfg.pod == cfg.pod
    && DependencySet(newCfg) == DependencySet(cfg) && NamespaceRefs(newCfg) == NamespaceRefs(cfg)
    && newCfg.namedVolumes == cfg.namedVolumes
  }

  function RewriteTx(db: Database, cfg: ContainerConfig, oldName: Option<Name>, newName: Option<Name>, newCfg: ContainerConfig)
    : Option<Database>
  {
    if newName.Some? && (newCfg.name != newName.value || oldName.None?) then None
    else if newName.Some? && newName.value in db.names && db.names[newName.value] != cfg.id then None
    else if cfg.id !in db.ctrs then None
    else if newName.None? || newName.value in db.names then Some(WithConfig(db, newCfg, cfg.id))
    else if cfg.pod.Some? && cfg.pod.value !in db.pods then None
    else Some(WithConfig(Renamed(db, cfg, oldName.value, newName.value), newCfg, cfg.id))
  }

  function WithConfig(db: Database, cfg: ContainerConfig, c: Id): Database
    requires c in db.ctrs
  {
    db.(ctrs := db.ctrs[c := db.ctrs[c].(config := cfg)])
  }

  function Renamed(db: Database, cfg: ContainerConfig, oldName: Name, newName: Name): Database {
    db.(ids := db.ids[cfg.id := newName],
        names := (db.names - {oldName})[newName := cfg.id],
        allCtrs := db.allCtrs[cfg.id := newName],
        pods := WithMember(db.pods, cfg.pod, cfg.id, newName))
  }

  function AddPodTx(db: Database, p: Id, name: Name): Option<Database> {
    if p in db.ids || name in db.names || p in db.pods then None
    else Some(db.(
      ids := db.ids[p := name],
      names := db.names[name := p],
      allPods := db.allPods[p := name],
      pods := db.pods[p := PodRecord(name, map[])]))
  }

  function RemovePodTx(db: Database, p: Id, name: Name): Option<Database> {
    if p !in db.pods || db.pods[p].containers.Keys != {} then None
    else Some(db.(
      ids := db.ids - {p},
      names := db.names - {name},
      allPods := db.allPods - {p},
      pods := db.pods - {p}))
  }

  /** A member of the pod that can go with it: all that depends on it are members too. */
  predicate CanGo(db: Database, members: map<Id, Name>, c: Id) {
    c in db.ctrs && db.ctrs[c].dependents <= members.Keys
  }

  function RemovePodContainersTx(db: Database, p: Id): Option<Database> {
    if p !in db.pods then None
    else
      var members := db.pods[p].containers;
      if exists c {:trigger CanGo(db, members, c)} :: c in members && !CanGo(db, members, c) then None
      else Some(db.(
        ids := db.ids - members.Keys,
        names := db.names - members.Values,
        allCtrs := db.allCtrs - members.Keys,
        ctrs := db.ctrs - members.Keys,
        pods := db.pods[p := db.pods[p].(containers := map[])]))
  }

  function AddVolumeTx(db: Database, v: Name): Option<Database> {
    if v in db.allVols || v in db.vols then None
    else Some(db.(vols := db.vols[v := {}], allVols := db.allVols + {v}))
  }

  /** The users of a volume that are still in the state. */
  function Users(db: Database, v: Name): set<Id>
    requires v in db.vols
  {
    db.vols[v] * db.ctrs.Keys
  }

  function RemoveVolumeTx(db: Database, v: Name): Option<Database> {
    if v !in db.vols || Users(db, v) != {} then None
    else Some(db.(vols := db.vols - {v}, allVols := db.allVols - {v}))
  }

  function SaveContainerTx(db: Database, c: Id, sessions: set<Id>): Option<Database> {
    if c !in db.ctrs then None
    else Some(db.(ctrs := db.ctrs[c := db.ctrs[c].(savedExecs := sessions)]))
  }

  function AddExecSessionTx(db: Database, c: Id, s: Id): Option<Database> {
    if c !in db.ctrs || s in db.execs then None
    else Some(db.(
      execs := db.execs[s := c],
      ctrs := db.ctrs[c := db.ctrs[c].(execs := db.ctrs[c].execs + {s})]))
  }

  /** Removes the session from the exec bucket of its container, if that still exists. */
  function WithoutSession(ctrs: map<Id, ContainerRecord>, c: Id, s: Id): (r: map<Id, ContainerRecord>)
    ensures r.Keys == ctrs.Keys
  {
    map d | d in ctrs :: if d == c then ctrs[d].(execs := ctrs[d].execs - {s}) else ctrs[d]
  }

  function RemoveExecSessionTx(db: Database, c: Id, s: Id): Option<Database> {
    if s !in db.execs || db.execs[s] != c then None
    else Some(db.(execs := db.execs - {s}, ctrs := WithoutSession(db.ctrs, c, s)))
  }

  /** A session in the container's exec bucket that is registered for another container. */
  predicate Mismatched(db: Database, c: Id, s: Id) {
    s in db.execs && db.execs[s] != c
  }

  function RemoveContainerExecSessionsTx(db: Database, c: Id): Option<Database> {
    if c !in db.ctrs then None
    else if exists s {:trigger Mismatched(db, c, s)} :: s in db.ctrs[c].execs && Mismatched(db, c, s) then None
    else Some(db.(
      execs := db.execs - db.ctrs[c].execs,
      ctrs := db.ctrs[c := db.ctrs[c].(execs := {})]))
  }

  /** After a reboot: exec sessions are forgotten everywhere, and IDs of neither a container nor a pod go. */
  function RefreshTx(db: Database): Option<Database> {
    if exists v :: v in db.allVols && v !in db.vols then None
    else
      var dangling := db.ids.Keys - db.ctrs.Keys - db.pods.Keys;
      Some(db.(
        ids := db.ids - dangling,
        names := db.names - set i | i in dangling :: db.ids[i],
        ctrs := map c | c in db.ctrs ::
          if c in db.ids then db.ctrs[c].(execs := {}, savedExecs := {}) else db.ctrs[c],
        execs := map[]))
  }
}
