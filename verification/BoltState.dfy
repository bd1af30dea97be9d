/** The state as a program: every operation works step by step on the buckets of a transaction, and commits
    or discards it as a whole. */
module BoltStates {
  import opened Digraphs
  import opened Containers
  import opened ContainerGraphs
  import opened Databases
  import opened DatabaseInvariants
  import opened PodInvariants
  import opened StoredGraphs
  import opened DatabaseRuns
  import opened VolumeUsers
  import opened GraphBuilding

  // ---------------------------------------------------------------- loops inside a transaction

  lemma WithDependentOneMore(ctrs: map<Id, ContainerRecord>, deps: set<Id>, c: Id, d: Id)
    requires d in ctrs
    ensures var r := WithDependent(ctrs, deps, c);
            WithDependent(ctrs, deps + {d}, c) == r[d := r[d].(dependents := r[d].dependents + {c})]
  {
    var r := WithDependent(ctrs, deps, c);
    assert d in deps ==> r[d].dependents + {c} == r[d].dependents;
  }

  lemma WithoutDependentOneMore(ctrs: map<Id, ContainerRecord>, deps: set<Id>, c: Id, d: Id)
    requires d in ctrs
    ensures var r := WithoutDependent(ctrs, deps, c);
            WithoutDependent(ctrs, deps + {d}, c) == r[d := r[d].(dependents := r[d].dependents - {c})]
  {
    var r := WithoutDependent(ctrs, deps, c);
    assert d in deps ==> r[d].dependents - {c} == r[d].dependents;
  }

  lemma WithUserOneMore(vols: map<Name, set<Id>>, used: set<Name>, c: Id, v: Name)
    requires v in vols
    ensures var r := WithUser(vols, used, c); WithUser(vols, used + {v}, c) == r[v := r[v] + {c}]
  {
    var r := WithUser(vols, used, c);
    assert v in used ==> r[v] + {c} == r[v];
  }

  ghost predicate Enterable(ctrs: map<Id, ContainerRecord>, pod: Option<Id>, d: Id) {
    d in ctrs && ctrs[d].podID == pod
  }

  /** Enters `c` as a dependent of each dependency. Fails at one that is missing or in another pod. */
  method EnterDependencies(ctrs0: map<Id, ContainerRecord>, deps: seq<Id>, c: Id, pod: Option<Id>)
    returns (ctrs: map<Id, ContainerRecord>, ok: bool)
    ensures ok <==> forall d {:trigger Enterable(ctrs0, pod, d)} :: d in Elems(deps) ==> Enterable(ctrs0, pod, d)
    ensures ok ==> ctrs == WithDependent(ctrs0, Elems(deps), c)
  {
    ctrs := ctrs0;
    ElemsTakeAll(deps);
    assert WithDependent(ctrs0, {}, c) == ctrs0;
    for i := 0 to |deps|
      invariant ctrs == WithDependent(ctrs0, Elems(deps[..i]), c)
      invariant forall d {:trigger Enterable(ctrs0, pod, d)} :: d in Elems(deps[..i]) ==> Enterable(ctrs0, pod, d)
    {
      var d := deps[i];
      assert d in Elems(deps);
      ElemsTakeOneMore(deps, i);
      if d !in ctrs || ctrs[d].podID != pod {
        assert !Enterable(ctrs0, pod, d);
        return ctrs, false;
      }
      assert Enterable(ctrs0, pod, d);
      WithDependentOneMore(ctrs0, Elems(deps[..i]), c, d);
      ctrs := ctrs[d := ctrs[d].(dependents := ctrs[d].dependents + {c})];
    }
    ok := true;
  }

  /** Withdraws `c` from its dependencies; one that is missing is passed over. */
  method WithdrawDependencies(ctrs0: map<Id, ContainerRecord>, deps: seq<Id>, c: Id)
    returns (ctrs: map<Id, ContainerRecord>)
    ensures ctrs == WithoutDependent(ctrs0, Elems(deps), c)
  {
    ctrs := ctrs0;
    ElemsTakeAll(deps);
    assert WithoutDependent(ctrs0, {}, c) == ctrs0;
    for i := 0 to |deps|
      invariant ctrs == WithoutDependent(ctrs0, Elems(deps[..i]), c)
    {
      var d := deps[i];
      ElemsTakeOneMore(deps, i);
      if d in ctrs {
        WithoutDependentOneMore(ctrs0, Elems(deps[..i]), c, d);
        ctrs := ctrs[d := ctrs[d].(dependents := ctrs[d].dependents - {c})];
      }
    }
  }

  /** Enters `c` as a user of each named volume, unless it is one already. Fails at a volume that is missing. */
  method EnterVolumes(vols0: map<Name, set<Id>>, named: seq<Name>, c: Id) returns (vols: map<Name, set<Id>>, ok: bool)
    ensures ok <==> Elems(named) <= vols0.Keys
    ensures ok ==> vols == WithUser(vols0, Elems(named), c)
  {
    vols := vols0;
    ElemsTakeAll(named);
    assert WithUser(vols0, {}, c) == vols0;
    for i := 0 to |named|
      invariant vols == WithUser(vols0, Elems(named[..i]), c)
      invariant Elems(named[..i]) <= vols0.Keys
    {
      var v := named[i];
      assert v in Elems(named);
      ElemsTakeOneMore(named, i);
      if v !in vols {
        return vols, false;
      }
      WithUserOneMore(vols0, Elems(named[..i]), c, v);
      if c !in vols[v] {
        vols := vols[v := vols[v] + {c}];
      } else {
        assert vols[v] + {c} == vols[v];
        assert vols[v := vols[v] + {c}] == vols;
      }
    }
    ok := true;
  }

  /** The withdrawal of `c` from the volumes deletes an entry only if it is absent: whatever the volumes, it
      changes nothing. */
  method WithdrawVolumes(vols0: map<Name, set<Id>>, named: seq<Name>, c: Id) returns (vols: map<Name, set<Id>>)
    ensures vols == vols0
  {
    vols := vols0;
    for i := 0 to |named|
      invariant vols == vols0
    {
      var v := named[i];
      if v in vols && c !in vols[v] {
        assert vols[v] - {c} == vols[v];
        assert vols[v := vols[v] - {c}] == vols;
        vols := vols[v := vols[v] - {c}];
      }
    }
  }

  /** The entries of a volume's bucket whose container still exists, in some order. */
  method LiveEntries(entries: set<Id>, ctrs: map<Id, ContainerRecord>) returns (live: seq<Id>)
    ensures Lists(live, entries * ctrs.Keys)
  {
    live := [];
    var rest := entries;
    assert (entries - rest) * ctrs.Keys == {};
    while rest != {}
      invariant rest <= entries && Lists(live, (entries - rest) * ctrs.Keys)
      decreases rest
    {
      var c :| c in rest;
      TakeFromRest(entries, rest, c);
      if c in ctrs {
        ListsAppend(live, (entries - rest) * ctrs.Keys, c);
        assert (entries - rest) * ctrs.Keys + {c} == (entries - rest + {c}) * ctrs.Keys;
        live := live + [c];
      } else {
        assert (entries - rest) * ctrs.Keys == (entries - rest + {c}) * ctrs.Keys;
      }
      rest := rest - {c};
    }
    assert entries - rest == entries;
  }

  /** Whether every dependent is a member of the pod. */
  method AllMembers(dependents: set<Id>, members: map<Id, Name>) returns (ok: bool)
    ensures ok <==> dependents <= members.Keys
  {
    var rest := dependents;
    while rest != {}
      invariant rest <= dependents && dependents - rest <= members.Keys
      decreases rest
    {
      var e :| e in rest;
      if e !in members {
        return false;
      }
      rest := rest - {e};
    }
    ok := true;
  }

  lemma MinusOneMore<K, V>(m: map<K, V>, gone: set<K>, k: K)
    ensures m - (gone + {k}) == m - gone - {k}
  {
  }

  /** The names that `ids` gives to some IDs. */
  ghost function NamesOf(ids: map<Id, Name>, some: set<Id>): set<Name> {
    set i | i in some && i in ids :: ids[i]
  }

  lemma NamesOfOneMore(ids: map<Id, Name>, some: set<Id>, i: Id)
    requires i in ids
    ensures NamesOf(ids, some + {i}) == NamesOf(ids, some) + {ids[i]}
  {
  }

  /** The database once the members in `gone` are removed. */
  ghost function WithoutMembers(db: Database, members: map<Id, Name>, gone: set<Id>): Database {
    db.(ids := db.ids - gone,
        names := db.names - NamesOf(members, gone),
        allCtrs := db.allCtrs - gone,
        ctrs := db.ctrs - gone)
  }

  lemma WithoutNone(db: Database, members: map<Id, Name>)
    ensures WithoutMembers(db, members, {}) == db
  {
    assert NamesOf(members, {}) == {};
  }

  lemma WithoutOneMore(db: Database, members: map<Id, Name>, gone: set<Id>, c: Id)
    requires c in members
    ensures var t := WithoutMembers(db, members, gone);
            WithoutMembers(db, members, gone + {c}) ==
              t.(ids := t.ids - {c}, names := t.names - {members[c]}, allCtrs := t.allCtrs - {c}, ctrs := t.ctrs - {c})
  {
    NamesOfOneMore(members, gone, c);
    MinusOneMore(db.ids, gone, c);
    MinusOneMore(db.names, NamesOf(members, gone), members[c]);
    MinusOneMore(db.allCtrs, gone, c);
    MinusOneMore(db.ctrs, gone, c);
  }

  lemma WithoutAll(db: Database, members: map<Id, Name>)
    ensures WithoutMembers(db, members, members.Keys) ==
            db.(ids := db.ids - members.Keys, names := db.names - members.Values,
                allCtrs := db.allCtrs - members.Keys, ctrs := db.ctrs - members.Keys)
  {
    assert NamesOf(members, members.Keys) == members.Values;
  }

  /** Removes the members one by one. Fails at one that is missing or that a non-member depends on. */
  method RemoveMembers(db: Database, members: map<Id, Name>) returns (tx: Database, ok: bool)
    ensures ok <==> forall c {:trigger CanGo(db, members, c)} :: c in members ==> CanGo(db, members, c)
    ensures ok ==> tx == WithoutMembers(db, members, members.Keys)
  {
    tx := db;
    var rest := members.Keys;
    WithoutNone(db, members);
    assert members.Keys - rest == {};
    while rest != {}
      invariant rest <= members.Keys
      invariant tx == WithoutMembers(db, members, members.Keys - rest)
      invariant forall c {:trigger CanGo(db, members, c)} :: c in members && c !in rest ==> CanGo(db, members, c)
      decreases rest
    {
      var c :| c in rest;
      if c !in tx.ctrs {
        assert !CanGo(db, members, c);
        return tx, false;
      }
      var within := AllMembers(tx.ctrs[c].dependents, members);
      if !within {
        assert !CanGo(db, members, c);
        return tx, false;
      }
      WithoutOneMore(db, members, members.Keys - rest, c);
      TakeFromRest(members.Keys, rest, c);
      tx := tx.(ids := tx.ids - {c}, names := tx.names - {members[c]}, allCtrs := tx.allCtrs - {c}, ctrs := tx.ctrs - {c});
      rest := rest - {c};
    }
    assert members.Keys - rest == members.Keys;
    ok := true;
  }

  /** Removes the sessions of container `c` from the registry. Fails at one registered for another container. */
  method RemoveSessions(registry: map<Id, Id>, sessions: set<Id>, c: Id) returns (execs: map<Id, Id>, ok: bool)
    ensures ok <==> forall s {:trigger registry[s]} :: s in sessions && s in registry ==> registry[s] == c
    ensures ok ==> execs == registry - sessions
  {
    execs := registry;
    var rest := sessions;
    assert registry - (sessions - rest) == registry;
    while rest != {}
      invariant rest <= sessions && execs == registry - (sessions - rest)
      invariant forall s {:trigger registry[s]} :: s in sessions - rest && s in registry ==> registry[s] == c
      decreases rest
    {
      var s :| s in rest;
      TakeFromRest(sessions, rest, s);
      MinusOneMore(registry, sessions - rest, s);
      if s in execs {
        if execs[s] != c {
          assert registry[s] != c;
          return execs, false;
        }
        execs := execs - {s};
      } else {
        assert execs - {s} == execs;
      }
      rest := rest - {s};
    }
    assert sessions - rest == sessions;
    ok := true;
  }

  ghost function Reset(ctrs: map<Id, ContainerRecord>, ids: set<Id>): (r: map<Id, ContainerRecord>)
    ensures r.Keys == ctrs.Keys
  {
    map c | c in ctrs :: if c in ids then ctrs[c].(execs := {}, savedExecs := {}) else ctrs[c]
  }

  /** Resets the state of every registered container and collects the IDs of neither a container nor a pod. */
  method ResetRecords(db: Database) returns (ctrs: map<Id, ContainerRecord>, dangling: set<Id>)
    ensures ctrs == Reset(db.ctrs, db.ids.Keys)
    ensures dangling == db.ids.Keys - db.ctrs.Keys - db.pods.Keys
  {
    ctrs, dangling := db.ctrs, {};
    var rest := db.ids.Keys;
    assert Reset(db.ctrs, db.ids.Keys - rest) == db.ctrs;
    while rest != {}
      invariant rest <= db.ids.Keys
      invariant ctrs == Reset(db.ctrs, db.ids.Keys - rest)
      invariant dangling == (db.ids.Keys - rest) - db.ctrs.Keys - db.pods.Keys
      decreases rest
    {
      var i :| i in rest;
      TakeFromRest(db.ids.Keys, rest, i);
      if i in ctrs {
        ctrs := ctrs[i := ctrs[i].(execs := {}, savedExecs := {})];
      } else if i !in db.pods {
        dangling := dangling + {i};
      }
      rest := rest - {i};
    }
    assert db.ids.Keys - rest == db.ids.Keys;
  }

  /** Removes the dangling IDs, each with the name it is registered under. */
  method RemoveDangling(ids0: map<Id, Name>, names0: map<Name, Id>, dangling: set<Id>)
    returns (ids: map<Id, Name>, names: map<Name, Id>)
    requires dangling <= ids0.Keys
    ensures ids == ids0 - dangling && names == names0 - NamesOf(ids0, dangling)
  {
    ids, names := ids0, names0;
    var rest := dangling;
    assert dangling - rest == {} && NamesOf(ids0, {}) == {};
    while rest != {}
      invariant rest <= dangling
      invariant ids == ids0 - (dangling - rest) && names == names0 - NamesOf(ids0, dangling - rest)
      decreases rest
    {
      var i :| i in rest;
      TakeFromRest(dangling, rest, i);
      NamesOfOneMore(ids0, dangling - rest, i);
      MinusOneMore(ids0, dangling - rest, i);
      MinusOneMore(names0, NamesOf(ids0, dangling - rest), ids0[i]);
      if ids[i] in names {
        names := names - {ids[i]};
      } else {
        assert names - {ids[i]} == names;
      }
      ids := ids - {i};
      rest := rest - {i};
    }
    assert dangling - rest == dangling;
  }

  method AllPresent(some: set<Name>, vols: map<Name, set<Id>>) returns (ok: bool)
    ensures ok <==> some <= vols.Keys
  {
    var rest := some;
    while rest != {}
      invariant rest <= some && some - rest <= vols.Keys
      decreases rest
    {
      var v :| v in rest;
      if v !in vols {
        return false;
      }
      rest := rest - {v};
    }
    ok := true;
  }

  // ---------------------------------------------------------------- the state

  class BoltState {
    var db: Database

    constructor ()
      ensures db == EmptyDatabase
    {
      db := EmptyDatabase;
    }

    /** Adds a container, to the pod given if any. Its own bucket is there before the dependencies are checked. */
    method AddContainer(cfg: ContainerConfig, pod: Option<Id>) returns (ok: bool)
      modifies this`db
      ensures ok <==> Apply(old(db), Op.AddContainer(cfg, pod)).Some?
      ensures db == Step(old(db), Op.AddContainer(cfg, pod))
    {
      if cfg.pod != pod {
        return false;
      }
      var depends := Dependencies(cfg);
      assert Elems(depends) == DependencySet(cfg);
      var tx := db;
      if (pod.Some? && pod.value !in tx.pods) || cfg.id in tx.ids || cfg.name in tx.names || cfg.id in tx.ctrs {
        return false;
      }
      tx := tx.(ids := tx.ids[cfg.id := cfg.name]);
      tx := tx.(names := tx.names[cfg.name := cfg.id]);
      tx := tx.(allCtrs := tx.allCtrs[cfg.id := cfg.name]);
      tx := tx.(ctrs := tx.ctrs[cfg.id := ContainerRecord(cfg, pod, {}, {}, {})]);
      var ctrs, entered := EnterDependencies(tx.ctrs, depends, cfg.id, pod);
      EnterableMeans(db, cfg, pod);
      if !entered {
        return false;
      }
      tx := tx.(ctrs := ctrs);
      if pod.Some? {
        var p := pod.value;
        tx := tx.(pods := tx.pods[p := tx.pods[p].(containers := tx.pods[p].containers[cfg.id := cfg.name])]);
      }
      var vols, found := EnterVolumes(tx.vols, cfg.namedVolumes, cfg.id);
      if !found {
        return false;
      }
      tx := tx.(vols := vols);
      db := tx;
      ok := true;
    }

    /** Removes a container that has no exec sessions and that nothing depends on. */
    method RemoveContainer(cfg: ContainerConfig, pod: Option<Id>) returns (ok: bool)
      modifies this`db
      ensures ok <==> Apply(old(db), Op.RemoveContainer(cfg, pod)).Some?
      ensures db == Step(old(db), Op.RemoveContainer(cfg, pod))
    {
      if cfg.pod != pod {
        return false;
      }
      var tx := db;
      if (pod.Some? && pod.value !in tx.pods) || cfg.id !in tx.ctrs {
        return false;
      }
      if pod.Some? {
        var p := pod.value;
        if cfg.id !in tx.pods[p].containers {
          return false;
        }
        tx := tx.(pods := tx.pods[p := tx.pods[p].(containers := tx.pods[p].containers - {cfg.id})]);
      }
      if tx.ctrs[cfg.id].execs != {} || tx.ctrs[cfg.id].dependents != {} {
        return false;
      }
      tx := tx.(ctrs := tx.ctrs - {cfg.id});
      tx := tx.(ids := tx.ids - {cfg.id});
      tx := tx.(names := tx.names - {cfg.name});
      tx := tx.(allCtrs := tx.allCtrs - {cfg.id});
      var depends := Dependencies(cfg);
      assert Elems(depends) == DependencySet(cfg);
      var ctrs := WithdrawDependencies(tx.ctrs, depends, cfg.id);
      tx := tx.(ctrs := ctrs);
      var vols := WithdrawVolumes(tx.vols, cfg.namedVolumes, cfg.id);
      tx := tx.(vols := vols);
      db := tx;
      ok := true;
    }

    /** Rewrites a container's configuration and, if a new name is given, renames it. */
    method SafeRewriteContainerConfig(cfg: ContainerConfig, oldName: Option<Name>, newName: Option<Name>,
                                      newCfg: ContainerConfig)
      returns (ok: bool)
      modifies this`db
      ensures ok <==> Apply(old(db), Rewrite(cfg, oldName, newName, newCfg)).Some?
      ensures db == Step(old(db), Rewrite(cfg, oldName, newName, newCfg))
    {
      if newName.Some? && (newCfg.name != newName.value || oldName.None?) {
        return false;
      }
      var tx := db;
      if newName.Some? {
        var name := newName.value;
        var needsRename := true;
        if name in tx.names {
          if tx.names[name] == cfg.id {
            needsRename := false;
          } else {
            return false;
          }
        }
        if needsRename {
          tx := tx.(names := tx.names - {oldName.value});
          tx := tx.(ids := tx.ids[cfg.id := name]);
          tx := tx.(names := tx.names[name := cfg.id]);
          tx := tx.(allCtrs := tx.allCtrs[cfg.id := name]);
          if cfg.pod.Some? {
            var p := cfg.pod.value;
            if p !in tx.pods {
              return false;
            }
            tx := tx.(pods := tx.pods[p := tx.pods[p].(containers := tx.pods[p].containers[cfg.id := name])]);
          }
        }
      }
      if cfg.id !in tx.ctrs {
        return false;
      }
      tx := tx.(ctrs := tx.ctrs[cfg.id := tx.ctrs[cfg.id].(config := newCfg)]);
      db := tx;
      ok := true;
    }

    method AddPod(p: Id, name: Name) returns (ok: bool)
      modifies this`db
      ensures ok <==> Apply(old(db), Op.AddPod(p, name)).Some?
      ensures db == Step(old(db), Op.AddPod(p, name))
    {
      var tx := db;
      if p in tx.ids || name in tx.names || p in tx.pods {
        return false;
      }
      tx := tx.(pods := tx.pods[p := PodRecord(name, map[])]);
      tx := tx.(ids := tx.ids[p := name]);
      tx := tx.(names := tx.names[name := p]);
      tx := tx.(allPods := tx.allPods[p := name]);
      db := tx;
      ok := true;
    }

    /** Removes a pod that has no containers. */
    method RemovePod(p: Id, name: Name) returns (ok: bool)
      modifies this`db
      ensures ok <==> Apply(old(db), Op.RemovePod(p, name)).Some?
      ensures db == Step(old(db), Op.RemovePod(p, name))
    {
      var tx := db;
      if p !in tx.pods || tx.pods[p].containers.Keys != {} {
        return false;
      }
      tx := tx.(ids := tx.ids - {p});
      tx := tx.(names := tx.names - {name});
      tx := tx.(allPods := tx.allPods - {p});
      tx := tx.(pods := tx.pods - {p});
      db := tx;
      ok := true;
    }

    /** Removes all containers of a pod at once. */
    method RemovePodContainers(p: Id) returns (ok: bool)
      modifies this`db
      ensures ok <==> Apply(old(db), Op.RemovePodContainers(p)).Some?
      ensures db == Step(old(db), Op.RemovePodContainers(p))
    {
      if p !in db.pods {
        return false;
      }
      var members := db.pods[p].containers;
      var tx, removed := RemoveMembers(db, members);
      if !removed {
        return false;
      }
      WithoutAll(db, members);
      tx := tx.(pods := tx.pods[p := tx.pods[p].(containers := map[])]);
      db := tx;
      ok := true;
    }

    method AddVolume(v: Name) returns (ok: bool)
      modifies this`db
      ensures ok <==> Apply(old(db), Op.AddVolume(v)).Some?
      ensures db == Step(old(db), Op.AddVolume(v))
    {
      if v in db.allVols || v in db.vols {
        return false;
      }
      db := db.(vols := db.vols[v := {}], allVols := db.allVols + {v});
      ok := true;
    }

    /** Removes a volume that no container still in the state is entered for. */
    method RemoveVolume(v: Name) returns (ok: bool)
      modifies this`db
      ensures ok <==> Apply(old(db), Op.RemoveVolume(v)).Some?
      ensures ok <==> v in old(db).vols && forall c :: c in old(db).vols[v] ==> c !in old(db).ctrs
      ensures old(Volumes(db) && Exact(db)) ==> (ok <==> v in old(db).vols && old(NamingContainers(db, v)) == {})
      ensures ok ==> v !in db.vols && v !in db.allVols
      ensures db == Step(old(db), Op.RemoveVolume(v))
    {
      if v !in db.vols {
        return false;
      }
      if Volumes(db) && Exact(db) { ExactUsers(db, v); }
      var deps := LiveEntries(db.vols[v], db.ctrs);
      if |deps| > 0 {
        assert deps[0] in Users(db, v);
        return false;
      }
      forall c | c in db.vols[v] ensures c !in db.ctrs { assert c !in Users(db, v); }
      db := db.(allVols := db.allVols - {v}, vols := db.vols - {v});
      ok := true;
    }

    method SaveContainer(c: Id, sessions: set<Id>) returns (ok: bool)
      modifies this`db
      ensures ok <==> Apply(old(db), Op.SaveContainer(c, sessions)).Some?
      ensures db == Step(old(db), Op.SaveContainer(c, sessions))
    {
      if c !in db.ctrs {
        return false;
      }
      db := db.(ctrs := db.ctrs[c := db.ctrs[c].(savedExecs := sessions)]);
      ok := true;
    }

    method AddExecSession(c: Id, s: Id) returns (ok: bool)
      modifies this`db
      ensures ok <==> Apply(old(db), Op.AddExecSession(c, s)).Some?
      ensures db == Step(old(db), Op.AddExecSession(c, s))
    {
      var tx := db;
      if c !in tx.ctrs || s in tx.execs {
        return false;
      }
      tx := tx.(execs := tx.execs[s := c]);
      tx := tx.(ctrs := tx.ctrs[c := tx.ctrs[c].(execs := tx.ctrs[c].execs + {s})]);
      db := tx;
      ok := true;
    }

    method RemoveExecSession(c: Id, s: Id) returns (ok: bool)
      modifies this`db
      ensures ok <==> Apply(old(db), Op.RemoveExecSession(c, s)).Some?
      ensures db == Step(old(db), Op.RemoveExecSession(c, s))
    {
      var tx := db;
      if s !in tx.execs || tx.execs[s] != c {
        return false;
      }
      tx := tx.(execs := tx.execs - {s});
      if c in tx.ctrs {
        tx := tx.(ctrs := tx.ctrs[c := tx.ctrs[c].(execs := tx.ctrs[c].execs - {s})]);
      }
      assert tx.ctrs == WithoutSession(db.ctrs, c, s);
      db := tx;
      ok := true;
    }

    method RemoveContainerExecSessions(c: Id) returns (ok: bool)
      modifies this`db
      ensures ok <==> Apply(old(db), Op.RemoveContainerExecSessions(c)).Some?
      ensures db == Step(old(db), Op.RemoveContainerExecSessions(c))
    {
      var tx := db;
      if c !in tx.ctrs {
        return false;
      }
      var execs, removed := RemoveSessions(tx.execs, tx.ctrs[c].execs, c);
      MismatchMeans(db, c);
      if !removed {
        return false;
      }
      tx := tx.(execs := execs);
      tx := tx.(ctrs := tx.ctrs[c := tx.ctrs[c].(execs := {})]);
      db := tx;
      ok := true;
    }

    /** Clears what does not survive a reboot. */
    method Refresh() returns (ok: bool)
      modifies this`db
      ensures ok <==> Apply(old(db), Op.Refresh).Some?
      ensures db == Step(old(db), Op.Refresh)
    {
      var tx := db;
      var ctrs, dangling := ResetRecords(tx);
      var ids, names := RemoveDangling(tx.ids, tx.names, dangling);
      var present := AllPresent(tx.allVols, tx.vols);
      if !present {
        return false;
      }
      assert NamesOf(db.ids, dangling) == set i | i in dangling :: db.ids[i];
      tx := tx.(ctrs := ctrs, ids := ids, names := names, execs := map[]);
      db := tx;
      ok := true;
    }

    // -------------------------------------------------------------- queries

    /** Who depends on a container. In a consistent state this is what a scan of all configurations finds. */
    method ContainerInUse(c: Id) returns (r: Option<seq<Id>>)
      ensures r.Some? <==> c in db.ctrs
      ensures r.Some? && Dependents(db) ==> Lists(r.value, NamedBy(db, c))
    {
      if c !in db.ctrs {
        return None;
      }
      var deps := KeysInSomeOrder(db.ctrs[c].dependents);
      if Dependents(db) { DependentsAreExact(db, c); }
      return Some(deps);
    }

    /** Who uses a volume. In a consistent state every container naming the volume is listed. */
    method VolumeInUse(v: Name) returns (r: Option<seq<Id>>)
      ensures r.Some? <==> v in db.vols
      ensures r.Some? ==> Lists(r.value, Users(db, v))
      ensures r.Some? && Volumes(db) ==> forall c :: c in NamingContainers(db, v) ==> c in r.value
      ensures r.Some? && Volumes(db) && Exact(db) ==> Lists(r.value, NamingContainers(db, v))
    {
      if v !in db.vols {
        return None;
      }
      var users := LiveEntries(db.vols[v], db.ctrs);
      if Volumes(db) {
        UsersIncludeNaming(db, v);
        if Exact(db) { ExactUsers(db, v); }
      }
      return Some(users);
    }

    /** The stored configurations of some containers. Fails at one that is missing. */
    method Load(ids: set<Id>) returns (r: Option<seq<ContainerConfig>>)
      ensures r.Some? <==> ids <= db.ctrs.Keys
      ensures r.Some? && Registries(db) ==> ByID(r.value) == Configs(db, ids)
    {
      var ctrs: seq<ContainerConfig> := [];
      var rest := ids;
      assert Configs(db, ids - rest) == map[];
      while rest != {}
        invariant rest <= ids && ids - rest <= db.ctrs.Keys
        invariant Registries(db) ==> ByID(ctrs) == Configs(db, ids - rest)
        decreases rest
      {
        var c :| c in rest;
        if c !in db.ctrs {
          return None;
        }
        TakeFromRest(ids, rest, c);
        ConfigsOneMore(db, ids - rest, c);
        ByIDAppend(ctrs, db.ctrs[c].config);
        if Registries(db) { assert CtrRegistered(db, c); }
        ctrs := ctrs + [db.ctrs[c].config];
        rest := rest - {c};
      }
      assert ids - rest == ids;
      return Some(ctrs);
    }

    /** In a consistent state the dependency graph of all containers can be built. */
    method GraphOfAllContainers() returns (r: Option<GraphResult>)
      ensures Consistent(db) ==> r.Some? && r.value.Built? && GraphOf(r.value.graph, Configs(db, db.ctrs.Keys))
    {
      var ctrs := Load(db.allCtrs.Keys);
      if ctrs.None? {
        if Registries(db) { AllCtrsAreCtrs(db); assert false; }
        return None;
      }
      var built := BuildContainerGraph(ctrs.value);
      if Consistent(db) {
        AllCtrsAreCtrs(db);
        AllIsSelfContained(db);
        SelfContainedBuilds(db, db.ctrs.Keys);
      }
      return Some(built);
    }

    /** In a consistent state the dependency graph of any pod can be built. */
    method GraphOfPod(p: Id) returns (r: Option<GraphResult>)
      ensures Consistent(db) && p in db.pods ==>
                r.Some? && r.value.Built? && GraphOf(r.value.graph, Configs(db, db.pods[p].containers.Keys))
    {
      if p !in db.pods {
        return None;
      }
      var ctrs := Load(db.pods[p].containers.Keys);
      if Consistent(db) { PodIsSelfContained(db, p); }
      if ctrs.None? {
        return None;
      }
      var built := BuildContainerGraph(ctrs.value);
      if Consistent(db) { SelfContainedBuilds(db, db.pods[p].containers.Keys); }
      return Some(built);
    }
  }

  lemma AllCtrsAreCtrs(db: Database)
    requires Registries(db)
    ensures db.allCtrs.Keys == db.ctrs.Keys
  {
    forall c ensures c in db.allCtrs <==> c in db.ctrs {
      if c in db.ctrs { assert CtrRegistered(db, c); }
    }
  }

  lemma ByIDAppend(ctrs: seq<ContainerConfig>, cfg: ContainerConfig)
    ensures ByID(ctrs + [cfg]) == ByID(ctrs)[cfg.id := cfg]
  {
    assert (ctrs + [cfg])[..|ctrs|] == ctrs;
  }

  lemma MismatchMeans(db: Database, c: Id)
    requires c in db.ctrs
    ensures (exists s {:trigger Mismatched(db, c, s)} :: s in db.ctrs[c].execs && Mismatched(db, c, s)) <==>
            !forall s {:trigger db.execs[s]} :: s in db.ctrs[c].execs && s in db.execs ==> db.execs[s] == c
  {
    forall s | s in db.ctrs[c].execs ensures Mismatched(db, c, s) <==> s in db.execs && db.execs[s] != c {}
  }

  /** With the new container's bucket in place, its dependencies can be entered exactly when the transaction
      allows them, and the result is the transaction's. */
  lemma EnterableMeans(db: Database, cfg: ContainerConfig, pod: Option<Id>)
    requires cfg.id !in db.ctrs
    ensures var ctrs := db.ctrs[cfg.id := ContainerRecord(cfg, pod, {}, {}, {})];
            && (forall d :: Enterable(ctrs, pod, d) <==> CanDependOn(db, cfg, pod, d))
            && WithDependent(ctrs, DependencySet(cfg), cfg.id) ==
                 WithDependent(db.ctrs, DependencySet(cfg), cfg.id)[cfg.id := NewRecord(cfg, pod)]
  {
    var none: set<Id> := {};
    assert none + {cfg.id} == {cfg.id};
  }
}
