/** Starting, restarting and removing a whole pod: the database gives the graph, and the graph the order. */
module PodOperations {
  import opened Digraphs
  import opened Containers
  import opened ContainerGraphs
  import opened Databases
  import opened StoredGraphs
  import opened BoltStates
  import opened GraphBuilding
  import opened NamespaceWalks
  import opened Traversals
  import opened Start = StartTraversal
  import Remove = RemoveTraversal

  datatype StartResult = NoGraph | NoEntry | Traversed(progress: Progress, calls: seq<Id>, running: set<Id>)

  /** The dependencies among the members of a pod. */
  ghost function PodGraph(db: Database, p: Id): Digraph
    requires p in db.pods
  {
    DependencyGraph(Configs(db, db.pods[p].containers.Keys))
  }

  lemma PodGraphIsSound(db: Database, p: Id)
    requires Consistent(db) && p in db.pods
    ensures PodGraph(db, p).Keys == db.pods[p].containers.Keys && Closed(PodGraph(db, p)) && NoCycle(PodGraph(db, p))
  {
    PodIsSelfContained(db, p);
    SelfContainedBuilds(db, db.pods[p].containers.Keys);
    NoneMeansNoCycle(PodGraph(db, p));
  }

  lemma NoneMeansNoCycle(g: Digraph)
    requires !HasCycle(g)
    ensures NoCycle(g)
  {
  }

  lemma NoSelfEdges(db: Database, p: Id)
    requires Consistent(db) && NoSelfReference(db) && p in db.pods
    ensures forall n :: n in PodGraph(db, p) ==> !SelfEdge(PodGraph(db, p), n)
  {
    forall n | n in PodGraph(db, p) ensures !SelfEdge(PodGraph(db, p), n) { assert n !in Deps(db, n); }
  }

  /** A graph with nodes, but without cycles and self-edges, has a node without dependencies. */
  lemma HasSink(g: Digraph)
    requires Closed(g) && NoCycle(g) && g.Keys != {} && forall n :: n in g ==> !SelfEdge(g, n)
    ensures Sinks(g) != {}
  {
    var n := HasMinimal(g, g.Keys);
    assert !SelfEdge(g, n);
    assert g[n] == {};
    assert n in Sinks(g);
  }

  /** In a consistent state where no container names itself, a pod that has containers can always be started or
      restarted: every container is visited, none is started twice, and each only after all it depends on. */
  method StartPod(state: BoltState, p: Id, world: Start.World, restart: bool) returns (r: StartResult)
    requires Consistent(state.db) && p in state.db.pods
    ensures !r.NoGraph?
    ensures r.Traversed? ==> Outcome(PodGraph(state.db, p), Start.Failing(PodGraph(state.db, p), world, restart), r.progress)
    ensures r.Traversed? ==> Achieved(PodGraph(state.db, p), world, restart, r.progress, r.calls, r.running)
    ensures NoSelfReference(state.db) ==> (r.NoEntry? <==> state.db.pods[p].containers.Keys == {})
    ensures NoSelfReference(state.db) && r.Traversed? ==> r.progress.visited == state.db.pods[p].containers.Keys
  {
    ghost var g := PodGraph(state.db, p);
    PodGraphIsSound(state.db, p);
    var built := state.GraphOfPod(p);
    var graph := built.value.graph;
    if NoSelfReference(state.db) {
      NoSelfEdges(state.db, p);
      if g.Keys != {} { HasSink(g); }
    }
    if |graph.noDepNodes| == 0 {
      return NoEntry;
    }
    assert graph.noDepNodes[0] in Sinks(g);
    var progress, errors, calls, running := StartAll(graph, world, restart, g);
    if NoSelfReference(state.db) { EveryoneVisited(g, Start.Failing(g, world, restart), progress); }
    return Traversed(progress, calls, running);
  }

  /** In a consistent state where no container names itself, removing a pod visits every container; each is
      removed at most once and after its dependents, and what is left needs nothing that is gone. */
  method RemovePodMembers(state: BoltState, p: Id, world: Remove.World) returns (progress: Progress, m: Remove.Removals)
    requires Consistent(state.db) && p in state.db.pods
    ensures Outcome(Reverse(PodGraph(state.db, p)), Remove.Failing(Reverse(PodGraph(state.db, p)), world), progress)
    ensures Remove.RemovalsOk(Reverse(PodGraph(state.db, p)), progress, m) && Remove.TurnsTold(world, progress.order, m)
    ensures forall n, d :: n in m.present && d in Deps(state.db, n) ==> d in m.present
    ensures NoSelfReference(state.db) ==> progress.visited == state.db.pods[p].containers.Keys
  {
    ghost var g := PodGraph(state.db, p);
    PodGraphIsSound(state.db, p);
    var built := state.GraphOfPod(p);
    var errors;
    progress, errors, m := Remove.RemoveAll(built.value.graph, world, g);
    forall n, d | n in m.present && d in Deps(state.db, n) ensures d in m.present {
      assert n in g && d in g[n];
      Remove.PresentStaysClosed(g, progress, m, n, d);
    }
    if NoSelfReference(state.db) {
      NoSelfEdges(state.db, p);
      ReverseReverse(g);
      forall n | n in Reverse(g) ensures !SelfEdge(Reverse(g), n) { assert !SelfEdge(g, n); }
      EveryoneVisited(Reverse(g), Remove.Failing(Reverse(g), world), progress);
    }
  }
}
