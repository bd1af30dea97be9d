/** What a consistent database guarantees to those who read it: dependents are exact, and dependency graphs
    can be built over all containers and over those of one pod. */
module StoredGraphs {
  import opened Digraphs
  import opened Containers
  import opened ContainerGraphs
  import opened Databases
  import opened DatabaseInvariants
  import opened PodInvariants
  import opened DatabaseRuns

  /** The containers whose configuration names `c` as a dependency. */
  ghost function NamedBy(db: Database, c: Id): set<Id> {
    set e | e in db.ctrs && c in Deps(db, e)
  }

  /** The dependents bucket is the exact inverse of the configured dependencies. */
  lemma DependentsAreExact(db: Database, c: Id)
    requires Dependents(db) && c in db.ctrs
    ensures db.ctrs[c].dependents == NamedBy(db, c)
  {
    forall e ensures e in db.ctrs[c].dependents <==> e in NamedBy(db, c) {
      if e in NamedBy(db, c) { assert DepStored(db, e, c); }
    }
  }

  /** A container can be removed on its own exactly when it has no exec session and nothing depends on it. */
  lemma RemovableIff(db: Database, cfg: ContainerConfig)
    requires Consistent(db) && cfg.id in db.ctrs && db.ctrs[cfg.id].config == cfg
    ensures RemoveContainerTx(db, cfg, cfg.pod).Some? <==> db.ctrs[cfg.id].execs == {} && NamedBy(db, cfg.id) == {}
  {
    DependentsAreExact(db, cfg.id);
    assert MemberOk(db, cfg.id);
  }

  /** So a container that names itself can never be removed on its own. */
  lemma SelfDependentStays(db: Database, cfg: ContainerConfig)
    requires Consistent(db) && cfg.id in db.ctrs && db.ctrs[cfg.id].config == cfg && cfg.id in DependencySet(cfg)
    ensures RemoveContainerTx(db, cfg, cfg.pod).None?
  {
    RemovableIff(db, cfg);
    assert cfg.id in NamedBy(db, cfg.id);
  }

  /** Such a container gets in: its own bucket is there when its dependencies are checked. */
  lemma SelfDependentRun(cfg: ContainerConfig)
    requires cfg.pod == None && DependencySet(cfg) == {cfg.id} && cfg.namedVolumes == []
    ensures var db := After([AddContainer(cfg, None)]);
            && LegalRun([AddContainer(cfg, None)]) && Consistent(db)
            && cfg.id in db.ctrs && db.ctrs[cfg.id].config == cfg
            && Apply(db, RemoveContainer(cfg, None)).None?
  {
    RunStep([], AddContainer(cfg, None));
    assert [] + [AddContainer(cfg, None)] == [AddContainer(cfg, None)];
    assert CanAddContainer(EmptyDatabase, cfg, None);
    RunsAreConsistent([AddContainer(cfg, None)]);
    SelfDependentStays(After([AddContainer(cfg, None)]), cfg);
  }

  /** `ids` contains whatever its members depend on. */
  ghost predicate SelfContained(db: Database, ids: set<Id>) {
    && ids <= db.ctrs.Keys
    && forall c, d {:trigger d in Deps(db, c)} :: c in ids && d in Deps(db, c) ==> d in ids
  }

  lemma AllIsSelfContained(db: Database)
    requires Dependents(db)
    ensures SelfContained(db, db.ctrs.Keys)
  {
    forall c, d | c in db.ctrs && d in Deps(db, c) ensures d in db.ctrs { assert DepStored(db, c, d); }
  }

  lemma PodIsSelfContained(db: Database, p: Id)
    requires Dependents(db) && Membership(db) && p in db.pods
    ensures SelfContained(db, db.pods[p].containers.Keys)
  {
    forall c | c in db.pods[p].containers ensures c in db.ctrs { MembersArePodded(db, p, c); }
    forall c, d | c in db.pods[p].containers && d in Deps(db, c) ensures d in db.pods[p].containers {
      MembersArePodded(db, p, c);
      assert DepStored(db, c, d);
      MembersArePodded(db, p, d);
    }
  }

  /** The stored configurations of `ids`. */
  function Configs(db: Database, ids: set<Id>): map<Id, ContainerConfig> {
    map c | c in ids && c in db.ctrs :: db.ctrs[c].config
  }

  lemma NoCycleMeansNone(g: Digraph)
    requires NoCycle(g)
    ensures !HasCycle(g)
  {
  }

  lemma SelfContainedRanks(db: Database, ids: set<Id>, rank: map<Id, nat>)
    requires SelfContained(db, ids) && Ranked(Stored(db), rank)
    ensures Closed(DependencyGraph(Configs(db, ids)))
    ensures Ranked(DependencyGraph(Configs(db, ids)), map c | c in Configs(db, ids) :: rank[c])
  {
    var g := DependencyGraph(Configs(db, ids));
    forall c, d | c in g && d in g[c] ensures d in g && (d != c ==> rank[d] < rank[c]) {
      assert d in Deps(db, c);
      assert d in Stored(db)[c];
    }
  }

  /** A self-contained set of containers always has a dependency graph. */
  lemma SelfContainedBuilds(db: Database, ids: set<Id>)
    requires Acyclic(db) && SelfContained(db, ids)
    ensures Closed(DependencyGraph(Configs(db, ids))) && !HasCycle(DependencyGraph(Configs(db, ids)))
  {
    var rank: map<Id, nat> :| Ranked(Stored(db), rank);
    SelfContainedRanks(db, ids, rank);
    var g := DependencyGraph(Configs(db, ids));
    RankedHasNoCycle(g, map c | c in Configs(db, ids) :: rank[c]);
    NoCycleMeansNone(g);
  }

  lemma ConfigsOneMore(db: Database, ids: set<Id>, c: Id)
    requires c in db.ctrs
    ensures Configs(db, ids + {c}) == Configs(db, ids)[c := db.ctrs[c].config]
  {
  }
}
