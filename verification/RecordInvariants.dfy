/** The transactions that change no container's references keep the database consistent: configuration
    rewrites and renames, saved states, exec sessions, volumes, and the refresh after a reboot. */
module RecordInvariants {
  import opened Digraphs
  import opened Containers
  import opened Databases

  // ---------------------------------------------------------------- transactions that keep all references

  ghost predicate Kept(r: ContainerRecord, s: ContainerRecord) {
    s.podID == r.podID && s.dependents == r.dependents && KeepsReferences(r.config, s.config)
  }

  ghost predicate Keeps(db: Database, t: Database) {
    && t.ctrs.Keys == db.ctrs.Keys
    && forall c {:trigger t.ctrs[c]} :: c in t.ctrs ==> Kept(db.ctrs[c], t.ctrs[c])
  }

  lemma KeepsDependents(db: Database, t: Database)
    requires Dependents(db) && Keeps(db, t)
    ensures Dependents(t)
  {
    forall c, d | c in t.ctrs && d in Deps(t, c) ensures DepStored(t, c, d) {
      assert Kept(db.ctrs[c], t.ctrs[c]);
      assert d in Deps(db, c) && DepStored(db, c, d);
      assert Kept(db.ctrs[d], t.ctrs[d]);
    }
    forall c, d | d in t.ctrs && c in t.ctrs[d].dependents ensures c in t.ctrs && d in Deps(t, c) {
      assert Kept(db.ctrs[d], t.ctrs[d]);
      assert c in db.ctrs[d].dependents && d in Deps(db, c);
      assert Kept(db.ctrs[c], t.ctrs[c]);
    }
  }

  lemma RankKeeps(g: Digraph, h: Digraph, rank: map<Id, nat>)
    requires Ranked(g, rank) && h.Keys == g.Keys && forall n {:trigger h[n]} :: n in h ==> h[n] == g[n]
    ensures Ranked(h, rank)
  {
  }

  lemma KeepsAcyclic(db: Database, t: Database)
    requires Acyclic(db) && Keeps(db, t)
    ensures Acyclic(t)
  {
    var rank: map<Id, nat> :| Ranked(Stored(db), rank);
    forall c | c in t.ctrs ensures Stored(t)[c] == Stored(db)[c] { assert Kept(db.ctrs[c], t.ctrs[c]); }
    RankKeeps(Stored(db), Stored(t), rank);
  }

  lemma KeepsVolumes(db: Database, t: Database)
    requires Volumes(db) && Keeps(db, t) && t.allVols == db.allVols && t.vols == db.vols
    ensures Volumes(t)
  {
    forall c, v | Uses(t, c, v) ensures v in t.vols && c in t.vols[v] {
      assert Kept(db.ctrs[c], t.ctrs[c]);
      assert Uses(db, c, v);
    }
  }

  ghost predicate KeepsNames(db: Database, t: Database) {
    && t.ids == db.ids && t.names == db.names && t.allCtrs == db.allCtrs && t.allPods == db.allPods
    && t.pods == db.pods && t.ctrs.Keys == db.ctrs.Keys
    && forall c {:trigger t.ctrs[c]} :: c in t.ctrs ==>
         && t.ctrs[c].config.id == db.ctrs[c].config.id && t.ctrs[c].config.name == db.ctrs[c].config.name
         && t.ctrs[c].config.pod == db.ctrs[c].config.pod && t.ctrs[c].podID == db.ctrs[c].podID
  }

  lemma KeepsRegistries(db: Database, t: Database)
    requires Registries(db) && KeepsNames(db, t)
    ensures Registries(t)
  {
    forall c | c in t.ctrs ensures CtrRegistered(t, c) { assert CtrRegistered(db, c); }
    forall p | p in t.pods ensures PodRegistered(t, p) { assert PodRegistered(db, p); }
  }

  lemma KeepsMembership(db: Database, t: Database)
    requires Membership(db) && KeepsNames(db, t)
    ensures Membership(t)
  {
    forall c | c in t.ctrs ensures MemberOk(t, c) { assert MemberOk(db, c); }
    forall p, c | p in t.pods && c in t.pods[p].containers ensures c in t.ctrs && t.ctrs[c].podID == Some(p) {
      assert c in db.pods[p].containers;
    }
  }

  lemma KeepsConsistent(db: Database, t: Database)
    requires Consistent(db) && Keeps(db, t) && KeepsNames(db, t) && Volumes(t) && ExecBuckets(t)
    ensures Consistent(t)
  {
    KeepsRegistries(db, t);
    KeepsDependents(db, t);
    KeepsAcyclic(db, t);
    KeepsMembership(db, t);
  }

  /** Only the volumes, the exec sessions and the saved states change. */
  ghost predicate KeepsConfigs(db: Database, t: Database) {
    && t == db.(ctrs := t.ctrs, execs := t.execs, vols := t.vols, allVols := t.allVols)
    && t.ctrs.Keys == db.ctrs.Keys
    && forall c {:trigger t.ctrs[c]} :: c in t.ctrs ==>
         t.ctrs[c] == db.ctrs[c].(execs := t.ctrs[c].execs, savedExecs := t.ctrs[c].savedExecs)
  }

  lemma KeepsConfigsKeeps(db: Database, t: Database)
    requires KeepsConfigs(db, t)
    ensures Keeps(db, t) && KeepsNames(db, t)
  {
  }

  // ---------------------------------------------------------------- rewriting a configuration

  /** What the callers of a rewrite see to: the handle and the new configuration keep the identity, the pod
      and the references of the stored one; a rename names the current name as the old one, and without a
      rename the name stays. */
  ghost predicate LegalRewrite(db: Database, cfg: ContainerConfig, oldName: Option<Name>, newName: Option<Name>,
                               newCfg: ContainerConfig)
  {
    cfg.id in db.ctrs ==>
      var stored := db.ctrs[cfg.id].config;
      && KeepsReferences(stored, newCfg) && cfg.pod == stored.pod
      && (if newName.Some? then oldName == Some(stored.name) else newCfg.name == stored.name)
  }

  lemma RewriteKeepsExecBuckets(db: Database, cfg: ContainerConfig, oldName: Option<Name>, newName: Option<Name>,
                                newCfg: ContainerConfig)
    requires ExecBuckets(db) && RewriteTx(db, cfg, oldName, newName, newCfg).Some?
    ensures ExecBuckets(RewriteTx(db, cfg, oldName, newName, newCfg).value)
  {
    var t := RewriteTx(db, cfg, oldName, newName, newCfg).value;
    forall c, s | c in t.ctrs && s in t.ctrs[c].execs ensures s in t.execs && t.execs[s] == c {
      assert s in db.ctrs[c].execs;
    }
  }

  lemma RewriteKeeps(db: Database, cfg: ContainerConfig, oldName: Option<Name>, newName: Option<Name>,
                     newCfg: ContainerConfig)
    requires LegalRewrite(db, cfg, oldName, newName, newCfg) && RewriteTx(db, cfg, oldName, newName, newCfg).Some?
    ensures Keeps(db, RewriteTx(db, cfg, oldName, newName, newCfg).value)
    ensures RewriteTx(db, cfg, oldName, newName, newCfg).value.vols == db.vols
  {
  }

  lemma RenameKeepsRegistries(db: Database, cfg: ContainerConfig, newName: Name, newCfg: ContainerConfig)
    requires Registries(db) && cfg.id in db.ctrs && newName !in db.names && newCfg.name == newName && newCfg.id == cfg.id
    ensures Registries(WithConfig(Renamed(db, cfg, db.ctrs[cfg.id].config.name, newName), newCfg, cfg.id))
  {
    var t := WithConfig(Renamed(db, cfg, db.ctrs[cfg.id].config.name, newName), newCfg, cfg.id);
    assert CtrRegistered(db, cfg.id);
    forall i | i in t.ids ensures t.ids[i] in t.names && t.names[t.ids[i]] == i {
      assert i in db.ids && db.names[db.ids[i]] == i;
    }
    forall n | n in t.names ensures t.names[n] in t.ids && t.ids[t.names[n]] == n {
      assert n != newName ==> n in db.names && db.ids[db.names[n]] == n;
    }
    forall c | c in t.ctrs ensures CtrRegistered(t, c) { assert CtrRegistered(db, c); }
    forall p | p in t.pods ensures PodRegistered(t, p) { assert p in db.pods && PodRegistered(db, p); }
  }

  lemma RenameKeepsMembership(db: Database, cfg: ContainerConfig, oldName: Name, newName: Name, newCfg: ContainerConfig)
    requires Membership(db) && cfg.id in db.ctrs && newCfg.name == newName
    requires db.ctrs[cfg.id].config.pod == cfg.pod == newCfg.pod
    ensures Membership(WithConfig(Renamed(db, cfg, oldName, newName), newCfg, cfg.id))
  {
    var t := WithConfig(Renamed(db, cfg, oldName, newName), newCfg, cfg.id);
    assert MemberOk(db, cfg.id);
    forall c | c in t.ctrs ensures MemberOk(t, c) { assert MemberOk(db, c); }
    forall p, c | p in t.pods && c in t.pods[p].containers ensures c in t.ctrs && t.ctrs[c].podID == Some(p) {
      assert p in db.pods && c in db.pods[p].containers;
    }
  }

  /** A rewrite whose new name, if any, is already the container's own leaves all names alone. */
  lemma NoRename(db: Database, cfg: ContainerConfig, oldName: Option<Name>, newName: Option<Name>, newCfg: ContainerConfig)
    requires Registries(db) && LegalRewrite(db, cfg, oldName, newName, newCfg)
    requires RewriteTx(db, cfg, oldName, newName, newCfg).Some? && (newName.None? || newName.value in db.names)
    ensures KeepsNames(db, RewriteTx(db, cfg, oldName, newName, newCfg).value)
  {
    assert CtrRegistered(db, cfg.id);
  }

  lemma RewriteKeepsNames(db: Database, cfg: ContainerConfig, oldName: Option<Name>, newName: Option<Name>,
                          newCfg: ContainerConfig)
    requires Registries(db) && Membership(db) && LegalRewrite(db, cfg, oldName, newName, newCfg)
    requires RewriteTx(db, cfg, oldName, newName, newCfg).Some?
    ensures Registries(RewriteTx(db, cfg, oldName, newName, newCfg).value)
    ensures Membership(RewriteTx(db, cfg, oldName, newName, newCfg).value)
  {
    if newName.None? || newName.value in db.names {
      var t := RewriteTx(db, cfg, oldName, newName, newCfg).value;
      NoRename(db, cfg, oldName, newName, newCfg);
      KeepsRegistries(db, t);
      KeepsMembership(db, t);
    } else {
      RenameKeepsRegistries(db, cfg, newName.value, newCfg);
      RenameKeepsMembership(db, cfg, oldName.value, newName.value, newCfg);
    }
  }

  lemma KeepsRest(db: Database, t: Database)
    requires Consistent(db) && Keeps(db, t) && t.vols == db.vols && t.allVols == db.allVols
    ensures Dependents(t) && Acyclic(t) && Volumes(t)
  {
    KeepsDependents(db, t);
    KeepsAcyclic(db, t);
    KeepsVolumes(db, t);
  }

  lemma RewriteKeepsConsistent(db: Database, cfg: ContainerConfig, oldName: Option<Name>, newName: Option<Name>,
                               newCfg: ContainerConfig)
    requires Consistent(db) && LegalRewrite(db, cfg, oldName, newName, newCfg)
    requires RewriteTx(db, cfg, oldName, newName, newCfg).Some?
    ensures Consistent(RewriteTx(db, cfg, oldName, newName, newCfg).value)
  {
    RewriteKeeps(db, cfg, oldName, newName, newCfg);
    RewriteKeepsNames(db, cfg, oldName, newName, newCfg);
    RewriteKeepsExecBuckets(db, cfg, oldName, newName, newCfg);
    KeepsRest(db, RewriteTx(db, cfg, oldName, newName, newCfg).value);
  }

  // ---------------------------------------------------------------- volumes

  lemma AddVolumeKeepsVolumes(db: Database, v: Name)
    requires Volumes(db) && AddVolumeTx(db, v).Some?
    ensures Volumes(AddVolumeTx(db, v).value) && KeepsConfigs(db, AddVolumeTx(db, v).value)
  {
    var t := AddVolumeTx(db, v).value;
    forall c, w | Uses(t, c, w) ensures w in t.vols && c in t.vols[w] { assert Uses(db, c, w); }
  }

  lemma RemoveVolumeKeepsVolumes(db: Database, v: Name)
    requires Volumes(db) && RemoveVolumeTx(db, v).Some?
    ensures Volumes(RemoveVolumeTx(db, v).value) && KeepsConfigs(db, RemoveVolumeTx(db, v).value)
  {
    var t := RemoveVolumeTx(db, v).value;
    forall c, w | Uses(t, c, w) ensures w in t.vols && c in t.vols[w] {
      assert Uses(db, c, w);
      assert c in Users(db, w);
    }
  }

  // ---------------------------------------------------------------- saved states and exec sessions

  lemma SaveKeepsExecBuckets(db: Database, c: Id, sessions: set<Id>)
    requires ExecBuckets(db) && SaveContainerTx(db, c, sessions).Some?
    ensures ExecBuckets(SaveContainerTx(db, c, sessions).value)
    ensures KeepsConfigs(db, SaveContainerTx(db, c, sessions).value)
  {
    var t := SaveContainerTx(db, c, sessions).value;
    forall d, s | d in t.ctrs && s in t.ctrs[d].execs ensures s in t.execs && t.execs[s] == d {
      assert s in db.ctrs[d].execs;
    }
  }

  lemma AddExecKeepsExecBuckets(db: Database, c: Id, s: Id)
    requires ExecBuckets(db) && AddExecSessionTx(db, c, s).Some?
    ensures ExecBuckets(AddExecSessionTx(db, c, s).value) && KeepsConfigs(db, AddExecSessionTx(db, c, s).value)
  {
    var t := AddExecSessionTx(db, c, s).value;
    forall d, r | d in t.ctrs && r in t.ctrs[d].execs ensures r in t.execs && t.execs[r] == d {
      assert (d, r) != (c, s) ==> r in db.ctrs[d].execs;
    }
  }

  /** Sessions leave a container's exec bucket, and the registry forgets them. */
  lemma FewerSessionsKeepExecBuckets(db: Database, t: Database, c: Id, gone: set<Id>)
    requires ExecBuckets(db) && KeepsConfigs(db, t) && t.execs == db.execs - gone
    requires c in t.ctrs ==> t.ctrs[c].execs == db.ctrs[c].execs - gone
    requires forall d {:trigger t.ctrs[d]} :: d in t.ctrs && d != c ==> t.ctrs[d].execs == db.ctrs[d].execs
    requires forall s {:trigger db.execs[s]} :: s in gone && s in db.execs ==> db.execs[s] == c
    ensures ExecBuckets(t)
  {
    forall d, r | d in t.ctrs && r in t.ctrs[d].execs ensures r in t.execs && t.execs[r] == d {
      assert r in db.ctrs[d].execs;
    }
  }

  lemma RemoveExecKeepsConfigs(db: Database, c: Id, s: Id)
    requires RemoveExecSessionTx(db, c, s).Some?
    ensures KeepsConfigs(db, RemoveExecSessionTx(db, c, s).value)
  {
  }

  lemma RemoveExecKeepsExecBuckets(db: Database, c: Id, s: Id)
    requires ExecBuckets(db) && RemoveExecSessionTx(db, c, s).Some?
    ensures ExecBuckets(RemoveExecSessionTx(db, c, s).value) && KeepsConfigs(db, RemoveExecSessionTx(db, c, s).value)
  {
    RemoveExecKeepsConfigs(db, c, s);
    FewerSessionsKeepExecBuckets(db, RemoveExecSessionTx(db, c, s).value, c, {s});
  }

  lemma RemoveExecsKeepsExecBuckets(db: Database, c: Id)
    requires ExecBuckets(db) && RemoveContainerExecSessionsTx(db, c).Some?
    ensures ExecBuckets(RemoveContainerExecSessionsTx(db, c).value)
    ensures KeepsConfigs(db, RemoveContainerExecSessionsTx(db, c).value)
  {
    var t := RemoveContainerExecSessionsTx(db, c).value;
    forall d, r | d in t.ctrs && r in t.ctrs[d].execs ensures r in t.execs && t.execs[r] == d {
      assert r in db.ctrs[d].execs && db.execs[r] == d;
      assert d != c && r !in db.ctrs[c].execs;
    }
  }

  // ---------------------------------------------------------------- refresh

  /** In a consistent database the refresh finds no dangling ID, and cannot fail. */
  lemma RefreshFindsNoDanglingID(db: Database)
    requires Registries(db) && Volumes(db)
    ensures RefreshTx(db).Some?
    ensures RefreshTx(db).value.ids == db.ids && RefreshTx(db).value.names == db.names
  {
    assert db.ids.Keys - db.ctrs.Keys - db.pods.Keys == {};
  }

  lemma RefreshKeepsExecBuckets(db: Database)
    requires Registries(db) && Volumes(db)
    ensures RefreshTx(db).Some? && ExecBuckets(RefreshTx(db).value) && KeepsConfigs(db, RefreshTx(db).value)
  {
    RefreshFindsNoDanglingID(db);
    var t := RefreshTx(db).value;
    forall c | c in t.ctrs ensures t.ctrs[c].execs == {} { assert CtrRegistered(db, c); }
  }
}
