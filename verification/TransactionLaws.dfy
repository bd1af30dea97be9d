/** What the transactions mean in a consistent database: exactly when they succeed, in terms of what is stored, what
    they leave, and how one undoes another. */
module TransactionLaws {
  import opened Digraphs
  import opened Containers
  import opened Databases
  import opened RecordInvariants
  import opened DatabaseRuns

  /** Nobody in the state has the ID or the name. */
  ghost predicate Unused(db: Database, id: Id, name: Name) {
    id !in db.ctrs && id !in db.pods && NameUnused(db, name)
  }

  ghost predicate NameUnused(db: Database, name: Name) {
    && (forall c {:trigger db.ctrs[c]} :: c in db.ctrs ==> db.ctrs[c].config.name != name)
    && (forall p {:trigger db.pods[p]} :: p in db.pods ==> db.pods[p].name != name)
  }

  lemma NameUnusedMeans(db: Database, name: Name)
    requires Registries(db)
    ensures NameUnused(db, name) <==> name !in db.names
  {
    if name in db.names {
      var i := db.names[name];
      assert i in db.ids && db.ids[i] == name;
      assert i in db.ctrs ==> CtrRegistered(db, i);
      assert i in db.pods ==> PodRegistered(db, i);
    } else {
      forall c | c in db.ctrs ensures db.ctrs[c].config.name != name { assert CtrRegistered(db, c); }
      forall p | p in db.pods ensures db.pods[p].name != name { assert PodRegistered(db, p); }
    }
  }

  lemma UnusedMeans(db: Database, id: Id, name: Name)
    requires Registries(db)
    ensures Unused(db, id, name) <==> id !in db.ids && name !in db.names
  {
    NameUnusedMeans(db, name);
    assert id in db.ctrs ==> CtrRegistered(db, id);
    assert id in db.pods ==> PodRegistered(db, id);
  }

  lemma UpdateAndRemove<K, V>(m: map<K, V>, k: K, v: V)
    requires k !in m
    ensures m[k := v] - {k} == m
  {
  }

  // ---------------------------------------------------------------- containers

  /** A container can be added if and only if its ID and its name are not in use, its pod is the one given and
      exists, all others that it names as dependencies are stored and belong to that pod, and its volumes exist. */
  lemma AddSucceedsIff(db: Database, cfg: ContainerConfig, pod: Option<Id>)
    requires Registries(db) && Membership(db)
    ensures Apply(db, AddContainer(cfg, pod)).Some? <==>
              && Unused(db, cfg.id, cfg.name)
              && cfg.pod == pod && (pod.Some? ==> pod.value in db.pods)
              && (forall d {:trigger Names(cfg, d)} ::
                    Names(cfg, d) && d != cfg.id ==> d in db.ctrs && db.ctrs[d].config.pod == pod)
              && (forall v {:trigger v in cfg.namedVolumes} :: v in cfg.namedVolumes ==> v in db.vols)
  {
    UnusedMeans(db, cfg.id, cfg.name);
    forall d ensures d in DependencySet(cfg) <==> Names(cfg, d) { DependenciesAreNamed(cfg, d); }
    forall d | d in db.ctrs ensures db.ctrs[d].podID == db.ctrs[d].config.pod { assert MemberOk(db, d); }
    if CanAddContainer(db, cfg, pod) {
      forall d | Names(cfg, d) && d != cfg.id ensures d in db.ctrs && db.ctrs[d].config.pod == pod {
        assert CanDependOn(db, cfg, pod, d);
      }
    }
  }

  lemma DependentsComeAndGo(db: Database, cfg: ContainerConfig, record: ContainerRecord)
    requires Dependents(db) && cfg.id !in db.ctrs
    ensures var ctrs := WithDependent(db.ctrs, DependencySet(cfg), cfg.id)[cfg.id := record];
            WithoutDependent(ctrs - {cfg.id}, DependencySet(cfg), cfg.id) == db.ctrs
  {
    var ctrs := WithDependent(db.ctrs, DependencySet(cfg), cfg.id)[cfg.id := record];
    UpdateAndRemove(WithDependent(db.ctrs, DependencySet(cfg), cfg.id), cfg.id, record);
    forall d | d in db.ctrs ensures WithoutDependent(ctrs - {cfg.id}, DependencySet(cfg), cfg.id)[d] == db.ctrs[d] {
      assert cfg.id !in db.ctrs[d].dependents;
      assert db.ctrs[d].dependents + {cfg.id} - {cfg.id} == db.ctrs[d].dependents;
    }
  }

  lemma MembersComeAndGo(db: Database, pod: Option<Id>, c: Id, name: Name)
    requires Membership(db) && c !in db.ctrs
    ensures WithoutMember(WithMember(db.pods, pod, c, name), pod, c) == db.pods
  {
    if pod.Some? && pod.value in db.pods {
      var record := db.pods[pod.value];
      assert c !in record.containers;
      UpdateAndRemove(record.containers, c, name);
    }
  }

  /** A container that does not depend on itself can be removed right after it was added, and the state is the same
      again but for the entries in the buckets of its volumes. */
  lemma AddThenRemove(db: Database, cfg: ContainerConfig, pod: Option<Id>)
    requires Registries(db) && Dependents(db) && Membership(db)
    requires CanAddContainer(db, cfg, pod) && cfg.id !in DependencySet(cfg)
    ensures var t := AddContainerTx(db, cfg, pod).value;
            RemoveContainerTx(t, cfg, pod) == Some(db.(vols := t.vols))
  {
    var t := AddContainerTx(db, cfg, pod).value;
    assert CanRemoveContainer(t, cfg, pod);
    UpdateAndRemove(db.ids, cfg.id, cfg.name);
    UpdateAndRemove(db.names, cfg.name, cfg.id);
    UpdateAndRemove(db.allCtrs, cfg.id, cfg.name);
    DependentsComeAndGo(db, cfg, NewRecord(cfg, pod));
    MembersComeAndGo(db, pod, cfg.id, cfg.name);
  }

  // ---------------------------------------------------------------- renaming

  /** A stored container can be renamed if and only if nobody else has the name. */
  lemma RenameSucceedsIff(db: Database, cfg: ContainerConfig, name: Name)
    requires Registries(db) && Membership(db) && cfg.id in db.ctrs && db.ctrs[cfg.id].config == cfg
    ensures RewriteTx(db, cfg, Some(cfg.name), Some(name), cfg.(name := name)).Some? <==>
              name == cfg.name || NameUnused(db, name)
  {
    NameUnusedMeans(db, name);
    assert CtrRegistered(db, cfg.id) && MemberOk(db, cfg.id);
    assert name in db.names && db.names[name] == cfg.id ==> db.ids[cfg.id] == name;
  }

  lemma NamesComeAndGo(names: map<Name, Id>, a: Name, b: Name, c: Id)
    requires a in names && names[a] == c && b !in names
    ensures ((names - {a})[b := c] - {b})[a := c] == names
  {
  }

  lemma PodNamesComeAndGo(db: Database, cfg: ContainerConfig, name: Name)
    requires Membership(db) && cfg.id in db.ctrs && db.ctrs[cfg.id].config == cfg
    ensures WithMember(WithMember(db.pods, cfg.pod, cfg.id, name), cfg.pod, cfg.id, cfg.name) == db.pods
  {
    assert MemberOk(db, cfg.id);
    if cfg.pod.Some? {
      var record := db.pods[cfg.pod.value];
      assert record.containers[cfg.id := name][cfg.id := cfg.name] == record.containers;
    }
  }

  /** A renaming to a name that is not in use, from `cfg` to `newCfg`. */
  lemma RewriteRenames(db: Database, cfg: ContainerConfig, newCfg: ContainerConfig)
    requires newCfg.name !in db.names && cfg.id in db.ctrs && (cfg.pod.Some? ==> cfg.pod.value in db.pods)
    ensures RewriteTx(db, cfg, Some(cfg.name), Some(newCfg.name), newCfg) ==
            Some(WithConfig(Renamed(db, cfg, cfg.name, newCfg.name), newCfg, cfg.id))
  {
  }

  /** The registries, the pod and the record after renaming and renaming back. */
  lemma RenamedBack(db: Database, cfg: ContainerConfig, name: Name)
    requires cfg.id in db.ctrs && db.ctrs[cfg.id].config == cfg && name !in db.names
    requires cfg.name in db.names && db.names[cfg.name] == cfg.id
    requires cfg.id in db.ids && cfg.id in db.allCtrs && db.ids[cfg.id] == db.allCtrs[cfg.id] == cfg.name
    requires WithMember(WithMember(db.pods, cfg.pod, cfg.id, name), cfg.pod, cfg.id, cfg.name) == db.pods
    ensures var newCfg := cfg.(name := name);
            var t := WithConfig(Renamed(db, cfg, cfg.name, name), newCfg, cfg.id);
            WithConfig(Renamed(t, newCfg, name, cfg.name), cfg, cfg.id) == db
  {
    NamesComeAndGo(db.names, cfg.name, name, cfg.id);
    assert db.ids[cfg.id := name][cfg.id := cfg.name] == db.ids;
    assert db.allCtrs[cfg.id := name][cfg.id := cfg.name] == db.allCtrs;
    var record := db.ctrs[cfg.id].(config := cfg.(name := name));
    assert record.(config := cfg) == db.ctrs[cfg.id];
    assert db.ctrs[cfg.id := record][cfg.id := record.(config := cfg)] == db.ctrs;
  }

  lemma NameOfStored(db: Database, c: Id)
    requires Registries(db) && Membership(db) && c in db.ctrs
    ensures var cfg := db.ctrs[c].config;
            && cfg.id == c && cfg.name in db.names && db.names[cfg.name] == c && (cfg.pod.Some? ==> cfg.pod.value in db.pods)
            && c in db.ids && c in db.allCtrs && db.ids[c] == db.allCtrs[c] == cfg.name
  {
    assert CtrRegistered(db, c) && MemberOk(db, c);
  }

  /** Renaming and renaming back changes nothing. */
  lemma RenameAndBack(db: Database, cfg: ContainerConfig, name: Name)
    requires Registries(db) && Membership(db) && cfg.id in db.ctrs && db.ctrs[cfg.id].config == cfg
    requires NameUnused(db, name)
    ensures var newCfg := cfg.(name := name);
            var t := RewriteTx(db, cfg, Some(cfg.name), Some(name), newCfg);
            t.Some? && RewriteTx(t.value, newCfg, Some(name), Some(cfg.name), cfg) == Some(db)
  {
    NameUnusedMeans(db, name);
    NameOfStored(db, cfg.id);
    PodNamesComeAndGo(db, cfg, name);
    RenameAndBackIn(db, cfg, name);
  }

  lemma RenameAndBackIn(db: Database, cfg: ContainerConfig, name: Name)
    requires cfg.id in db.ctrs && db.ctrs[cfg.id].config == cfg && name !in db.names
    requires cfg.name in db.names && db.names[cfg.name] == cfg.id && (cfg.pod.Some? ==> cfg.pod.value in db.pods)
    requires cfg.id in db.ids && cfg.id in db.allCtrs && db.ids[cfg.id] == db.allCtrs[cfg.id] == cfg.name
    requires WithMember(WithMember(db.pods, cfg.pod, cfg.id, name), cfg.pod, cfg.id, cfg.name) == db.pods
    ensures var newCfg := cfg.(name := name);
            var t := RewriteTx(db, cfg, Some(cfg.name), Some(name), newCfg);
            t.Some? && RewriteTx(t.value, newCfg, Some(name), Some(cfg.name), cfg) == Some(db)
  {
    var newCfg := cfg.(name := name);
    var t := WithConfig(Renamed(db, cfg, cfg.name, name), newCfg, cfg.id);
    RewriteRenames(db, cfg, newCfg);
    RewriteRenames(t, newCfg, cfg);
    RenamedBack(db, cfg, name);
  }

  // ---------------------------------------------------------------- pods

  lemma AddPodSucceedsIff(db: Database, p: Id, name: Name)
    requires Registries(db)
    ensures AddPodTx(db, p, name).Some? <==> Unused(db, p, name)
  {
    UnusedMeans(db, p, name);
  }

  /** A pod can be removed right after it was added, and the state is the same again. */
  lemma AddPodThenRemove(db: Database, p: Id, name: Name)
    requires Registries(db) && Unused(db, p, name)
    ensures AddPodTx(db, p, name).Some?
    ensures RemovePodTx(AddPodTx(db, p, name).value, p, name) == Some(db)
  {
    UnusedMeans(db, p, name);
    UpdateAndRemove(db.ids, p, name);
    UpdateAndRemove(db.names, name, p);
    UpdateAndRemove(db.allPods, p, name);
    UpdateAndRemove(db.pods, p, PodRecord(name, map[]));
  }

  /** A pod can be removed if and only if no container belongs to it. */
  lemma RemovePodSucceedsIff(db: Database, p: Id, name: Name)
    requires Membership(db) && p in db.pods
    ensures RemovePodTx(db, p, name).Some? <==> forall c {:trigger db.ctrs[c]} :: c in db.ctrs ==> db.ctrs[c].config.pod != Some(p)
  {
    forall c | c in db.ctrs ensures db.ctrs[c].config.pod == Some(p) ==> c in db.pods[p].containers { assert MemberOk(db, c); }
    if c :| c in db.pods[p].containers { assert MemberOk(db, c); }
  }

  /** What emptying a pod leaves: all containers of other pods and of none, their records untouched, and the IDs and
      names of all but the members. */
  ghost function Without(db: Database, p: Id): Database
    requires p in db.pods
  {
    db.(ids := map i | i in db.ids && !IsMember(db, p, i) :: db.ids[i],
        names := map n | n in db.names && !IsMember(db, p, db.names[n]) :: db.names[n],
        allCtrs := map c | c in db.allCtrs && !IsMember(db, p, c) :: db.allCtrs[c],
        ctrs := map c | c in db.ctrs && !IsMember(db, p, c) :: db.ctrs[c],
        pods := db.pods[p := PodRecord(db.pods[p].name, map[])])
  }

  ghost predicate IsMember(db: Database, p: Id, c: Id) {
    c in db.ctrs && db.ctrs[c].config.pod == Some(p)
  }

  lemma MemberMeans(db: Database, p: Id, c: Id)
    requires Membership(db) && p in db.pods
    ensures IsMember(db, p, c) <==> c in db.pods[p].containers
  {
    assert c in db.ctrs ==> MemberOk(db, c);
  }

  lemma MemberNames(db: Database, p: Id, n: Name)
    requires Registries(db) && Membership(db) && p in db.pods && n in db.names
    ensures n in db.pods[p].containers.Values <==> IsMember(db, p, db.names[n])
  {
    var members := db.pods[p].containers;
    if n in members.Values {
      var c :| c in members && members[c] == n;
      assert MemberOk(db, c) && CtrRegistered(db, c);
      MemberMeans(db, p, c);
    }
    if IsMember(db, p, db.names[n]) {
      var c := db.names[n];
      assert MemberOk(db, c) && CtrRegistered(db, c);
      assert members[c] == n;
    }
  }

  /** Emptying a pod takes its members, and nothing else. */
  lemma EmptiedPod(db: Database, p: Id)
    requires Registries(db) && Membership(db) && p in db.pods && RemovePodContainersTx(db, p).Some?
    ensures RemovePodContainersTx(db, p).value == Without(db, p)
  {
    var members := db.pods[p].containers;
    forall c ensures IsMember(db, p, c) <==> c in members { MemberMeans(db, p, c); }
    forall n | n in db.names ensures n in members.Values <==> IsMember(db, p, db.names[n]) { MemberNames(db, p, n); }
    TakenOut(db, p, members);
  }

  lemma TakenOut(db: Database, p: Id, members: map<Id, Name>)
    requires p in db.pods
    requires forall c {:trigger IsMember(db, p, c)} {:trigger c in members} :: IsMember(db, p, c) <==> c in members
    requires forall n {:trigger db.names[n]} :: n in db.names ==> (n in members.Values <==> IsMember(db, p, db.names[n]))
    ensures Without(db, p) ==
            db.(ids := db.ids - members.Keys, names := db.names - members.Values, allCtrs := db.allCtrs - members.Keys,
                ctrs := db.ctrs - members.Keys, pods := db.pods[p := db.pods[p].(containers := map[])])
  {
    var t := Without(db, p);
    assert t.ids == db.ids - members.Keys;
    assert t.names == db.names - members.Values;
    assert t.allCtrs == db.allCtrs - members.Keys;
    assert t.ctrs == db.ctrs - members.Keys;
  }

  // ---------------------------------------------------------------- volumes, sessions and reboots

  lemma AddVolumeThenRemove(db: Database, v: Name)
    requires Volumes(db) && v !in db.vols
    ensures AddVolumeTx(db, v).Some? && RemoveVolumeTx(AddVolumeTx(db, v).value, v) == Some(db)
  {
    var t := AddVolumeTx(db, v).value;
    assert Users(t, v) == {};
    UpdateAndRemove(db.vols, v, {});
    assert db.allVols + {v} - {v} == db.allVols;
  }

  /** A session that was just registered can be removed, and the state is the same again. */
  lemma AddExecThenRemove(db: Database, c: Id, s: Id)
    requires ExecBuckets(db) && c in db.ctrs && s !in db.execs
    ensures AddExecSessionTx(db, c, s).Some? && RemoveExecSessionTx(AddExecSessionTx(db, c, s).value, c, s) == Some(db)
  {
    var t := AddExecSessionTx(db, c, s).value;
    UpdateAndRemove(db.execs, s, c);
    assert db.ctrs[c].execs + {s} - {s} == db.ctrs[c].execs;
    assert WithoutSession(t.ctrs, c, s) == db.ctrs;
  }

  function WithoutSessions(ctrs: map<Id, ContainerRecord>): map<Id, ContainerRecord> {
    map c | c in ctrs :: ctrs[c].(execs := {}, savedExecs := {})
  }

  /** A reboot makes the state forget all exec sessions, and nothing else. */
  lemma RefreshForgetsSessions(db: Database)
    requires Registries(db) && Volumes(db)
    ensures RefreshTx(db) == Some(db.(ctrs := WithoutSessions(db.ctrs), execs := map[]))
  {
    RefreshFindsNoDanglingID(db);
    var t := RefreshTx(db).value;
    forall c | c in db.ctrs ensures t.ctrs[c] == WithoutSessions(db.ctrs)[c] { assert CtrRegistered(db, c); }
    assert t.ctrs == WithoutSessions(db.ctrs);
  }
}
