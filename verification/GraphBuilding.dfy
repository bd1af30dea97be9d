/** Building the dependency graph of a list of containers. */
module GraphBuilding {
  import opened Digraphs
  import opened Containers
  import opened ContainerGraphs
  import opened CycleDetection

  datatype GraphResult =
    | Built(graph: ContainerGraph)
    | DependencyNotFound
    | CycleFound
    | InternalError

  /** The graph without the edges of the nodes in `rest`. */
  function Without(g: Digraph, rest: set<Id>): (h: Digraph)
    ensures h.Keys == g.Keys
  {
    map n | n in g :: if n in rest then {} else g[n]
  }

  lemma WithoutOneLess(g: Digraph, rest: set<Id>, n: Id)
    requires n in g && n in rest
    ensures Without(g, rest - {n}) == Without(g, rest)[n := g[n]]
  {
  }

  lemma NoEdgesSpells(nodes: map<Id, ContainerNode>, g: Digraph)
    requires nodes.Keys == g.Keys
    requires forall n :: n in nodes ==> nodes[n].dependsOn == [] && nodes[n].dependedOn == []
    ensures EdgesBuilt(nodes, nodes.Keys, [], g, g.Keys)
  {
    var h := Without(g, g.Keys);
    forall n | n in h ensures Reverse(h)[n] == {} && NodeSpells(nodes, nodes.Keys, h, n) {}
  }

  lemma ByIDTakeOneMore(ctrs: seq<ContainerConfig>, i: nat)
    requires i < |ctrs|
    ensures ByID(ctrs[..i + 1]) == ByID(ctrs[..i])[ctrs[i].id := ctrs[i]]
  {
    assert ctrs[..i + 1][..i] == ctrs[..i];
  }

  /** All nodes, with no edges yet. */
  method BuildNodes(ctrs: seq<ContainerConfig>) returns (nodes: map<Id, ContainerNode>, notDependedOn: set<Id>)
    ensures nodes.Keys == ByID(ctrs).Keys == notDependedOn
    ensures forall n :: n in nodes ==> nodes[n] == ContainerNode(ByID(ctrs)[n], [], [])
  {
    nodes, notDependedOn := map[], {};
    for i := 0 to |ctrs|
      invariant nodes.Keys == ByID(ctrs[..i]).Keys == notDependedOn
      invariant forall n :: n in nodes ==> nodes[n] == ContainerNode(ByID(ctrs[..i])[n], [], [])
    {
      ByIDTakeOneMore(ctrs, i);
      nodes := nodes[ctrs[i].id := ContainerNode(ctrs[i], [], [])];
      notDependedOn := notDependedOn + {ctrs[i].id};
    }
    assert ctrs[..|ctrs|] == ctrs;
  }

  /** The edges of one node. Stops at the first dependency that is not in the list. */
  method AddEdges(nodes0: map<Id, ContainerNode>, notDependedOn0: set<Id>, node: Id, deps: seq<Id>, ghost h: Digraph)
    returns (nodes: map<Id, ContainerNode>, notDependedOn: set<Id>, found: bool)
    requires Spells(nodes0, notDependedOn0, h) && node in h && h[node] == {} && NoDuplicates(deps)
    ensures found <==> Elems(deps) <= nodes0.Keys
    ensures found ==> Spells(nodes, notDependedOn, h[node := Elems(deps)])
    ensures found ==> forall n :: n in nodes ==> nodes[n].container == nodes0[n].container
  {
    nodes, notDependedOn := nodes0, notDependedOn0;
    assert Elems(deps[..0]) == {};
    assert h[node := {}] == h;
    for i := 0 to |deps|
      invariant Elems(deps[..i]) <= nodes0.Keys
      invariant Spells(nodes, notDependedOn, h[node := Elems(deps[..i])])
      invariant forall n :: n in nodes ==> nodes[n].container == nodes0[n].container
    {
      var dep := deps[i];
      assert dep in Elems(deps);
      if dep !in nodes {
        return nodes, notDependedOn, false;
      }
      ElemsTakeOneMore(deps, i);
      AddEdgeSpells(nodes, notDependedOn, h[node := Elems(deps[..i])], node, dep);
      assert WithEdge(h[node := Elems(deps[..i])], node, dep) == h[node := Elems(deps[..i + 1])];
      nodes := nodes[node := nodes[node].(dependsOn := nodes[node].dependsOn + [dep])];
      nodes := nodes[dep := nodes[dep].(dependedOn := nodes[dep].dependedOn + [node])];
      notDependedOn := notDependedOn - {dep};
    }
    assert deps[..|deps|] == deps;
    found := true;
  }

  /** The edges of all nodes but those in `rest` are in place, and `noDepNodes` lists those that have none. */
  ghost predicate EdgesBuilt(nodes: map<Id, ContainerNode>, notDependedOn: set<Id>, noDepNodes: seq<Id>,
                             g: Digraph, rest: set<Id>)
  {
    && Spells(nodes, notDependedOn, Without(g, rest))
    && Lists(noDepNodes, Sinks(g) - rest)
    && (forall n, m {:trigger m in g[n]} :: n in g && n !in rest && m in g[n] ==> m in g)
  }

  ghost predicate SameContainers(nodes: map<Id, ContainerNode>, ctrs: map<Id, ContainerConfig>) {
    nodes.Keys == ctrs.Keys && forall n {:trigger nodes[n]} :: n in nodes ==> nodes[n].container == ctrs[n]
  }

  /** The turn of the edge-building loop for `node`, whose dependencies are `deps`. */
  method BuildEdgesOf(nodes0: map<Id, ContainerNode>, notDependedOn0: set<Id>, noDepNodes0: seq<Id>,
                      node: Id, deps: seq<Id>, ghost ctrs: map<Id, ContainerConfig>, ghost g: Digraph, ghost rest: set<Id>)
    returns (nodes: map<Id, ContainerNode>, notDependedOn: set<Id>, noDepNodes: seq<Id>, found: bool)
    requires EdgesBuilt(nodes0, notDependedOn0, noDepNodes0, g, rest) && SameContainers(nodes0, ctrs)
    requires node in g && node in rest && Lists(deps, g[node])
    ensures found ==> EdgesBuilt(nodes, notDependedOn, noDepNodes, g, rest - {node}) && SameContainers(nodes, ctrs)
    ensures !found ==> !Closed(g)
  {
    noDepNodes := noDepNodes0;
    assert Elems(deps) == g[node];
    nodes, notDependedOn, found := AddEdges(nodes0, notDependedOn0, node, deps, Without(g, rest));
    if !found {
      var m :| m in Elems(deps) && m !in nodes0.Keys;
      return;
    }
    WithoutOneLess(g, rest, node);
    SinksOneMore(g, rest, node);
    if |deps| == 0 {
      ListsAppend(noDepNodes, Sinks(g) - rest, node);
      noDepNodes := noDepNodes + [node];
    } else {
      assert deps[0] in g[node];
    }
  }

  lemma SinksOneMore(g: Digraph, rest: set<Id>, n: Id)
    requires n in g && n in rest
    ensures Sinks(g) - (rest - {n}) == Sinks(g) - rest + (if g[n] == {} then {n} else {})
  {
  }

  lemma AllEdgesBuilt(nodes: map<Id, ContainerNode>, notDependedOn: set<Id>, noDepNodes: seq<Id>, g: Digraph)
    requires EdgesBuilt(nodes, notDependedOn, noDepNodes, g, {})
    ensures Spells(nodes, notDependedOn, g) && Lists(noDepNodes, Sinks(g)) && Edges(nodes) == g
  {
    assert Without(g, {}) == g;
    forall n | n in g ensures Edges(nodes)[n] == g[n] { assert NodeSpells(nodes, notDependedOn, g, n); }
  }

  /** Every edge of every node, in whatever order the nodes come. */
  method BuildEdges(nodes0: map<Id, ContainerNode>, notDependedOn0: set<Id>,
                    ghost ctrs: map<Id, ContainerConfig>, ghost g: Digraph)
    returns (nodes: map<Id, ContainerNode>, notDependedOn: set<Id>, noDepNodes: seq<Id>, found: bool)
    requires EdgesBuilt(nodes0, notDependedOn0, [], g, g.Keys) && SameContainers(nodes0, ctrs)
    requires g.Keys == ctrs.Keys && forall n {:trigger ctrs[n]} :: n in ctrs ==> DependencySet(ctrs[n]) == g[n]
    ensures found ==> EdgesBuilt(nodes, notDependedOn, noDepNodes, g, {}) && SameContainers(nodes, ctrs)
    ensures !found ==> !Closed(g)
  {
    nodes, notDependedOn, noDepNodes := nodes0, notDependedOn0, [];
    var rest := nodes.Keys;
    while rest != {}
      invariant rest <= g.Keys
      invariant EdgesBuilt(nodes, notDependedOn, noDepNodes, g, rest) && SameContainers(nodes, ctrs)
      decreases rest
    {
      var node :| node in rest;
      var deps := Dependencies(nodes[node].container);
      nodes, notDependedOn, noDepNodes, found :=
        BuildEdgesOf(nodes, notDependedOn, noDepNodes, node, deps, ctrs, g, rest);
      if !found {
        return;
      }
      rest := rest - {node};
    }
    found := true;
  }

  /** Succeeds exactly when every dependency is in the list and no two containers depend on each other;
      the result is then the dependency graph of the list, whatever the order in which nodes are taken. */
  method BuildContainerGraph(ctrs: seq<ContainerConfig>) returns (r: GraphResult)
    ensures !r.InternalError?
    ensures r.DependencyNotFound? <==> !Closed(DependencyGraph(ByID(ctrs)))
    ensures r.CycleFound? <==> Closed(DependencyGraph(ByID(ctrs))) && HasCycle(DependencyGraph(ByID(ctrs)))
    ensures r.Built? ==> GraphOf(r.graph, ByID(ctrs))
  {
    ghost var cs := ByID(ctrs);
    ghost var g := DependencyGraph(cs);
    var nodes, notDependedOn := BuildNodes(ctrs);
    NoEdgesSpells(nodes, g);
    var noDepNodes, found;
    nodes, notDependedOn, noDepNodes, found := BuildEdges(nodes, notDependedOn, cs, g);
    if !found {
      return DependencyNotFound;
    }
    AllEdgesBuilt(nodes, notDependedOn, noDepNodes, g);

    var graph := ContainerGraph(nodes, noDepNodes, notDependedOn);
    var cycle, err := DetectCycles(graph);
    if err {
      return InternalError;
    } else if cycle {
      return CycleFound;
    }
    return Built(graph);
  }
}
