/** The container dependency graph. */
module ContainerGraphs {
  import opened Digraphs
  import opened Containers

  datatype ContainerNode = ContainerNode(container: ContainerConfig, dependsOn: seq<Id>, dependedOn: seq<Id>)

  datatype ContainerGraph = ContainerGraph(
    nodes: map<Id, ContainerNode>,
    noDepNodes: seq<Id>,
    notDependedOnNodes: set<Id>)

  /** The dependency relation that the nodes' edge lists spell out. */
  function Edges(nodes: map<Id, ContainerNode>): (g: Digraph)
    ensures g.Keys == nodes.Keys
  {
    map n | n in nodes :: Elems(nodes[n].dependsOn)
  }

  /** Some two distinct nodes depend on each other, directly or not. */
  ghost predicate HasCycle(g: Digraph) {
    exists u, v :: u != v && Reaches(g, u, v) && Reaches(g, v, u)
  }

  /** The dependency relation that the configurations themselves spell out. */
  function DependencyGraph(ctrs: map<Id, ContainerConfig>): (g: Digraph)
    ensures g.Keys == ctrs.Keys
  {
    map id | id in ctrs :: DependencySet(ctrs[id])
  }

  /** The containers of a list by ID; a later entry replaces an earlier one with the same ID. */
  function ByID(ctrs: seq<ContainerConfig>): map<Id, ContainerConfig> {
    if ctrs == [] then map[]
    else var last := ctrs[|ctrs| - 1]; ByID(ctrs[..|ctrs| - 1])[last.id := last]
  }

  ghost function Sinks(g: Digraph): set<Id> {
    set n | n in g && g[n] == {}
  }

  /** Both edge lists of every node spell out `g`, and `notDependedOn` holds the nodes without dependents. */
  ghost predicate Spells(nodes: map<Id, ContainerNode>, notDependedOn: set<Id>, g: Digraph) {
    && nodes.Keys == g.Keys
    && Closed(g)
    && notDependedOn <= g.Keys
    && (forall n {:trigger NodeSpells(nodes, notDependedOn, g, n)} :: n in nodes ==> NodeSpells(nodes, notDependedOn, g, n))
  }

  ghost predicate NodeSpells(nodes: map<Id, ContainerNode>, notDependedOn: set<Id>, g: Digraph, n: Id)
    requires nodes.Keys == g.Keys
  {
    && n in nodes
    && Lists(nodes[n].dependsOn, g[n])
    && Lists(nodes[n].dependedOn, Reverse(g)[n])
    && (n in notDependedOn <==> Reverse(g)[n] == {})
  }

  /** `graph` holds `g`, with its entry points for starting and for removing. */
  ghost predicate Holds(graph: ContainerGraph, g: Digraph) {
    Spells(graph.nodes, graph.notDependedOnNodes, g) && Lists(graph.noDepNodes, Sinks(g))
  }

  /** `graph` is the dependency graph of `ctrs`. */
  ghost predicate GraphOf(graph: ContainerGraph, ctrs: map<Id, ContainerConfig>) {
    && Holds(graph, DependencyGraph(ctrs))
    && (forall n {:trigger graph.nodes[n]} :: n in graph.nodes ==> graph.nodes[n].container == ctrs[n])
  }

  function WithEdge(g: Digraph, n: Id, m: Id): Digraph
    requires n in g
  {
    g[n := g[n] + {m}]
  }

  lemma ReverseWithEdge(g: Digraph, n: Id, m: Id)
    requires n in g && m in g
    ensures Reverse(WithEdge(g, n, m)) == WithEdge(Reverse(g), m, n)
  {
    var h := WithEdge(g, n, m);
    forall k | k in g ensures Reverse(h)[k] == WithEdge(Reverse(g), m, n)[k] {
      assert forall x :: x in Reverse(h)[k] <==> x in WithEdge(Reverse(g), m, n)[k];
    }
  }

  /** Entering one new edge on both of its ends. */
  lemma AddEdgeSpells(nodes: map<Id, ContainerNode>, notDependedOn: set<Id>, g: Digraph, n: Id, m: Id)
    requires Spells(nodes, notDependedOn, g) && n in nodes && m in nodes && m !in g[n]
    ensures Spells(AddEdge(nodes, n, m), notDependedOn - {m}, WithEdge(g, n, m))
  {
    assert NodeSpells(nodes, notDependedOn, g, n) && NodeSpells(nodes, notDependedOn, g, m);
    forall k | k in nodes ensures NodeSpells(AddEdge(nodes, n, m), notDependedOn - {m}, WithEdge(g, n, m), k) {
      assert NodeSpells(nodes, notDependedOn, g, k);
      AddEdgeSpellsAt(nodes, notDependedOn, g, n, m, k);
    }
  }

  lemma AddEdgeSpellsAt(nodes: map<Id, ContainerNode>, notDependedOn: set<Id>, g: Digraph, n: Id, m: Id, k: Id)
    requires nodes.Keys == g.Keys && n in nodes && m in nodes && m !in g[n]
    requires NodeSpells(nodes, notDependedOn, g, k)
    ensures NodeSpells(AddEdge(nodes, n, m), notDependedOn - {m}, WithEdge(g, n, m), k)
  {
    var r := Reverse(g);
    assert n !in r[m];
    ReverseWithEdge(g, n, m);
    if k == n { ListsAppend(nodes[n].dependsOn, g[n], m); }
    if k == m { ListsAppend(nodes[m].dependedOn, r[m], n); }
    assert WithEdge(r, m, n)[m] != {};
  }

  function AddEdge(nodes: map<Id, ContainerNode>, n: Id, m: Id): map<Id, ContainerNode>
    requires n in nodes && m in nodes
  {
    var out := nodes[n := nodes[n].(dependsOn := nodes[n].dependsOn + [m])];
    out[m := out[m].(dependedOn := out[m].dependedOn + [n])]
  }
}
