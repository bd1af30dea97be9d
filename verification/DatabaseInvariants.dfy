/** Every transaction keeps the database consistent. */
module DatabaseInvariants {
  import opened Digraphs
  import opened Containers
  import opened Databases

  lemma EmptyIsConsistent()
    ensures Consistent(EmptyDatabase)
  {
    assert Ranked(Stored(EmptyDatabase), map[]);
  }

  // ---------------------------------------------------------------- adding a container

  lemma AddKeepsRegistries(db: Database, cfg: ContainerConfig, pod: Option<Id>)
    requires Registries(db) && CanAddContainer(db, cfg, pod)
    ensures Registries(AddContainerTx(db, cfg, pod).value)
  {
    var t := AddContainerTx(db, cfg, pod).value;
    forall c | c in t.ctrs ensures CtrRegistered(t, c) {
      assert c != cfg.id ==> CtrRegistered(db, c);
    }
    forall p | p in t.pods ensures PodRegistered(t, p) {
      assert p in db.pods && PodRegistered(db, p);
    }
  }

  lemma AddKeepsDependencies(db: Database, cfg: ContainerConfig, pod: Option<Id>)
    requires Dependents(db) && CanAddContainer(db, cfg, pod)
    ensures Dependents(AddContainerTx(db, cfg, pod).value)
  {
    var t := AddContainerTx(db, cfg, pod).value;
    forall c, d | c in t.ctrs && d in Deps(t, c) ensures DepStored(t, c, d) {
      if c == cfg.id {
        assert CanDependOn(db, cfg, pod, d);
      } else {
        assert d in Deps(db, c) && DepStored(db, c, d);
      }
    }
    forall c, d | d in t.ctrs && c in t.ctrs[d].dependents ensures c in t.ctrs && d in Deps(t, c) {
      if d != cfg.id && c in db.ctrs[d].dependents {
        assert d in Deps(db, c);
      }
    }
  }

  /** Some number above every rank. */
  lemma {:induction false} AboveAll(rank: map<Id, nat>) returns (k: nat)
    ensures forall c :: c in rank ==> rank[c] < k
    decreases rank.Keys
  {
    if rank == map[] {
      k := 0;
    } else {
      var c :| c in rank;
      var rest := rank - {c};
      k := AboveAll(rest);
      if k <= rank[c] { k := rank[c] + 1; }
      assert forall x :: x in rank && x != c ==> x in rest;
    }
  }

  /** A new node that only depends on existing ones, and perhaps on itself, ranks above them all. */
  lemma RankNewNode(g: Digraph, h: Digraph, rank: map<Id, nat>, n: Id) returns (rank': map<Id, nat>)
    requires Ranked(g, rank) && n !in g && h.Keys == g.Keys + {n} && h[n] <= h.Keys
    requires forall c {:trigger h[c]} :: c in g ==> h[c] == g[c]
    ensures Ranked(h, rank')
  {
    var k := AboveAll(rank);
    rank' := rank[n := k];
  }

  /** A database that gains container `n`, while the others keep their configuration. */
  ghost predicate Gains(db: Database, t: Database, n: Id) {
    && n !in db.ctrs && t.ctrs.Keys == db.ctrs.Keys + {n}
    && forall c {:trigger db.ctrs[c]} :: c in db.ctrs ==> t.ctrs[c].config == db.ctrs[c].config
  }

  lemma GainKeepsAcyclic(db: Database, t: Database, n: Id)
    requires Acyclic(db) && Gains(db, t, n) && Deps(t, n) <= t.ctrs.Keys
    ensures Acyclic(t)
  {
    var rank: map<Id, nat> :| Ranked(Stored(db), rank);
    forall c | c in db.ctrs ensures Stored(t)[c] == Stored(db)[c] { assert db.ctrs[c].config == t.ctrs[c].config; }
    var rank' := RankNewNode(Stored(db), Stored(t), rank, n);
  }

  lemma AddGains(db: Database, cfg: ContainerConfig, pod: Option<Id>)
    requires CanAddContainer(db, cfg, pod)
    ensures Gains(db, AddContainerTx(db, cfg, pod).value, cfg.id)
    ensures Deps(AddContainerTx(db, cfg, pod).value, cfg.id) <= db.ctrs.Keys + {cfg.id}
  {
    forall d | d in DependencySet(cfg) ensures d in db.ctrs.Keys + {cfg.id} { assert CanDependOn(db, cfg, pod, d); }
  }

  lemma AddKeepsMembership(db: Database, cfg: ContainerConfig)
    requires Registries(db) && Membership(db) && CanAddContainer(db, cfg, cfg.pod)
    ensures Membership(AddContainerTx(db, cfg, cfg.pod).value)
  {
    var t := AddContainerTx(db, cfg, cfg.pod).value;
    forall c | c in t.ctrs ensures MemberOk(t, c) {
      assert c != cfg.id ==> MemberOk(db, c);
    }
    forall p, c | p in t.pods && c in t.pods[p].containers ensures c in t.ctrs && t.ctrs[c].podID == Some(p) {
      assert p in db.pods;
      assert c != cfg.id ==> c in db.pods[p].containers;
      assert c in db.pods[p].containers ==> c in db.ctrs;
    }
  }

  lemma AddKeepsVolumes(db: Database, cfg: ContainerConfig, pod: Option<Id>)
    requires Volumes(db) && CanAddContainer(db, cfg, pod)
    ensures Volumes(AddContainerTx(db, cfg, pod).value)
  {
    var t := AddContainerTx(db, cfg, pod).value;
    forall c, v | Uses(t, c, v) ensures v in t.vols && c in t.vols[v] {
      if c != cfg.id { assert Uses(db, c, v); }
    }
  }

  lemma AddKeepsExecBuckets(db: Database, cfg: ContainerConfig, pod: Option<Id>)
    requires ExecBuckets(db) && CanAddContainer(db, cfg, pod)
    ensures ExecBuckets(AddContainerTx(db, cfg, pod).value)
  {
    var t := AddContainerTx(db, cfg, pod).value;
    forall c, s | c in t.ctrs && s in t.ctrs[c].execs ensures s in t.execs && t.execs[s] == c {
      assert s in db.ctrs[c].execs;
    }
  }

  lemma AddKeepsConsistent(db: Database, cfg: ContainerConfig)
    requires Consistent(db) && CanAddContainer(db, cfg, cfg.pod)
    ensures Consistent(AddContainerTx(db, cfg, cfg.pod).value)
  {
    AddKeepsRegistries(db, cfg, cfg.pod);
    AddKeepsDependencies(db, cfg, cfg.pod);
    AddGains(db, cfg, cfg.pod);
    GainKeepsAcyclic(db, AddContainerTx(db, cfg, cfg.pod).value, cfg.id);
    AddKeepsMembership(db, cfg);
    AddKeepsVolumes(db, cfg, cfg.pod);
    AddKeepsExecBuckets(db, cfg, cfg.pod);
  }

  // ---------------------------------------------------------------- removing a container

  /** The handle passed in carries the stored configuration. */
  ghost predicate HandleOk(db: Database, cfg: ContainerConfig) {
    cfg.id in db.ctrs ==> db.ctrs[cfg.id].config == cfg
  }

  lemma RemoveKeepsRegistries(db: Database, cfg: ContainerConfig, pod: Option<Id>)
    requires Registries(db) && HandleOk(db, cfg) && CanRemoveContainer(db, cfg, pod)
    ensures Registries(RemoveContainerTx(db, cfg, pod).value)
  {
    var t := RemoveContainerTx(db, cfg, pod).value;
    assert CtrRegistered(db, cfg.id);
    forall i | i in t.ids ensures t.ids[i] in t.names && t.names[t.ids[i]] == i {
      assert db.names[db.ids[i]] == i;
    }
    forall c | c in t.ctrs ensures CtrRegistered(t, c) { assert CtrRegistered(db, c); }
    forall p | p in t.pods ensures PodRegistered(t, p) { assert p in db.pods && PodRegistered(db, p); }
  }

  lemma RemoveKeepsDependents(db: Database, cfg: ContainerConfig, pod: Option<Id>)
    requires Dependents(db) && HandleOk(db, cfg) && CanRemoveContainer(db, cfg, pod)
    ensures Dependents(RemoveContainerTx(db, cfg, pod).value)
  {
    var t := RemoveContainerTx(db, cfg, pod).value;
    forall c, d | c in t.ctrs && d in Deps(t, c) ensures DepStored(t, c, d) {
      assert d in Deps(db, c) && DepStored(db, c, d);
    }
    forall c, d | d in t.ctrs && c in t.ctrs[d].dependents ensures c in t.ctrs && d in Deps(t, c) {
      assert c in db.ctrs[d].dependents && d in Deps(db, c);
    }
  }

  /** Containers are dropped at most; those that stay keep their configuration and exec bucket. */
  ghost predicate Drops(db: Database, t: Database) {
    && t.ctrs.Keys <= db.ctrs.Keys
    && forall c {:trigger t.ctrs[c]} :: c in t.ctrs ==>
         t.ctrs[c].config == db.ctrs[c].config && t.ctrs[c].execs == db.ctrs[c].execs
  }

  lemma RemoveDrops(db: Database, cfg: ContainerConfig, pod: Option<Id>)
    requires CanRemoveContainer(db, cfg, pod)
    ensures Drops(db, RemoveContainerTx(db, cfg, pod).value)
  {
  }

  /** Dropping nodes keeps a rank. */
  lemma RankDrops(g: Digraph, h: Digraph, rank: map<Id, nat>)
    requires Ranked(g, rank) && h.Keys <= g.Keys && Closed(h) && forall n :: n in h ==> h[n] == g[n]
    ensures Ranked(h, map n | n in h :: rank[n])
  {
  }

  lemma DropKeepsAcyclic(db: Database, t: Database)
    requires Acyclic(db) && Dependents(t) && Drops(db, t)
    ensures Acyclic(t)
  {
    var rank: map<Id, nat> :| Ranked(Stored(db), rank);
    StoredIsClosed(t);
    RankDrops(Stored(db), Stored(t), rank);
  }

  lemma StoredIsClosed(db: Database)
    requires Dependents(db)
    ensures Closed(Stored(db))
  {
    forall c, d | c in Stored(db) && d in Stored(db)[c] ensures d in Stored(db) {
      assert d in Deps(db, c) && DepStored(db, c, d);
    }
  }

  lemma RemoveKeepsMembership(db: Database, cfg: ContainerConfig)
    requires Membership(db) && HandleOk(db, cfg) && CanRemoveContainer(db, cfg, cfg.pod)
    ensures Membership(RemoveContainerTx(db, cfg, cfg.pod).value)
  {
    var t := RemoveContainerTx(db, cfg, cfg.pod).value;
    assert MemberOk(db, cfg.id);
    forall c | c in t.ctrs ensures MemberOk(t, c) { assert MemberOk(db, c); }
    forall p, c | p in t.pods && c in t.pods[p].containers ensures c in t.ctrs && t.ctrs[c].podID == Some(p) {
      assert p in db.pods && c in db.pods[p].containers;
    }
  }

  lemma RemoveKeepsConsistent(db: Database, cfg: ContainerConfig)
    requires Consistent(db) && HandleOk(db, cfg) && CanRemoveContainer(db, cfg, cfg.pod)
    ensures Consistent(RemoveContainerTx(db, cfg, cfg.pod).value)
  {
    var t := RemoveContainerTx(db, cfg, cfg.pod).value;
    RemoveKeepsRegistries(db, cfg, cfg.pod);
    RemoveKeepsDependents(db, cfg, cfg.pod);
    RemoveDrops(db, cfg, cfg.pod);
    DropKeepsAcyclic(db, t);
    RemoveKeepsMembership(db, cfg);
    DropKeepsVolumes(db, t);
    DropKeepsExecBuckets(db, t);
  }

  lemma DropKeepsVolumes(db: Database, t: Database)
    requires Volumes(db) && t.vols == db.vols && t.allVols == db.allVols && Drops(db, t)
    ensures Volumes(t)
  {
    forall c, v | Uses(t, c, v) ensures v in t.vols && c in t.vols[v] { assert Uses(db, c, v); }
  }

  lemma DropKeepsExecBuckets(db: Database, t: Database)
    requires ExecBuckets(db) && t.execs == db.execs && Drops(db, t)
    ensures ExecBuckets(t)
  {
    forall c, s | c in t.ctrs && s in t.ctrs[c].execs ensures s in t.execs && t.execs[s] == c {
      assert s in db.ctrs[c].execs;
    }
  }
}
