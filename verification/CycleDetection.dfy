/** Cycle detection: the search for strongly connected components that stops at the first component
    with more than one member. */
module CycleDetection {
  import opened Digraphs
  import opened Containers
  import opened ContainerGraphs

  datatype NodeInfo = NodeInfo(index: nat, lowLink: nat, onStack: bool)

  /** A snapshot of the variables that the search shares between its recursive calls. */
  datatype Search = Search(index: nat, nodes: map<Id, NodeInfo>, stack: seq<Id>)

  /** Indices are handed out once each; the stack holds exactly the nodes marked so, oldest first. */
  ghost predicate StackOk(g: Digraph, s: Search) {
    && s.nodes.Keys <= g.Keys
    && (forall n :: n in s.nodes ==> s.nodes[n].lowLink <= s.nodes[n].index < s.index)
    && (forall n {:trigger OnStack(s, n)} :: OnStack(s, n) ==> n in s.stack)
    && (forall i :: 0 <= i < |s.stack| ==> OnStack(s, s.stack[i]))
    && (forall i, j :: 0 <= i < j < |s.stack| ==> Older(s, i, j))
  }

  ghost predicate OnStack(s: Search, n: Id) {
    n in s.nodes && s.nodes[n].onStack
  }

  /** The node at position `i` of the stack was met before the one at position `j`. */
  ghost predicate Older(s: Search, i: int, j: int) {
    && 0 <= i < |s.stack| && 0 <= j < |s.stack|
    && s.stack[i] in s.nodes && s.stack[j] in s.nodes
    && s.nodes[s.stack[i]].index < s.nodes[s.stack[j]].index
  }

  /** `path` holds the nodes whose calls are open; each leads to the younger ones. */
  ghost predicate PathOk(g: Digraph, s: Search, path: set<Id>) {
    && (forall p :: p in path ==> OnStack(s, p))
    && (forall p, q {:trigger Reaches(g, p, q)} ::
          p in path && q in path && s.nodes[p].index < s.nodes[q].index ==> Reaches(g, p, q))
  }

  /** `n` reaches a node whose call is still open and that is at least as old. */
  ghost predicate LeadsBack(g: Digraph, s: Search, path: set<Id>, n: Id) {
    exists p {:trigger Reaches(g, n, p)} ::
      p in path && p in s.nodes && n in s.nodes && s.nodes[p].index <= s.nodes[n].index && Reaches(g, n, p)
  }

  ghost predicate Done(s: Search, n: Id) {
    n in s.nodes && !s.nodes[n].onStack
  }

  /** Finished nodes depend on finished nodes only, and none of them is on a cycle. */
  ghost predicate DoneOk(g: Digraph, s: Search) {
    forall n :: Done(s, n) ==> OnlyDoneBelow(g, s, n) && OffCycle(g, n)
  }

  ghost predicate OnlyDoneBelow(g: Digraph, s: Search, n: Id) {
    n in g && forall m {:trigger m in g[n]} :: m in g[n] ==> Done(s, m)
  }

  ghost predicate OffCycle(g: Digraph, n: Id) {
    forall m :: Reaches(g, n, m) && Reaches(g, m, n) ==> n == m
  }

  ghost predicate Inv(g: Digraph, s: Search, path: set<Id>) {
    && Closed(g)
    && StackOk(g, s)
    && PathOk(g, s, path)
    && (forall n {:trigger OnStack(s, n)} :: OnStack(s, n) && n !in path ==> LeadsBack(g, s, path, n))
    && DoneOk(g, s)
  }

  /** The low link of `n` is the index of a node on the stack that `n` reaches. */
  ghost predicate LowLinkOk(g: Digraph, s: Search, n: Id) {
    n in s.nodes && exists u {:trigger Reaches(g, n, u)} ::
      OnStack(s, u) && s.nodes[u].index == s.nodes[n].lowLink && Reaches(g, n, u)
  }

  /** What a call on `node` leaves alone, and what it adds. */
  ghost predicate Extends(g: Digraph, s: Search, t: Search, node: Id) {
    && s.nodes.Keys <= t.nodes.Keys
    && (forall n :: n in s.nodes ==> t.nodes[n] == s.nodes[n] && s.nodes[n].index < s.index)
    && (forall n :: n in t.nodes && n !in s.nodes ==> s.index <= t.nodes[n].index && Reaches(g, node, n))
    && s.stack <= t.stack
    && node in t.nodes && t.nodes[node].index == s.index
    && s.index < t.index
  }

  /** The open node that a node on the stack leads back to. */
  lemma OpenNodeAbove(g: Digraph, s: Search, path: set<Id>, n: Id) returns (p: Id)
    requires Inv(g, s, path) && OnStack(s, n)
    ensures p in path && p in s.nodes && n in s.nodes && s.nodes[p].index <= s.nodes[n].index && Reaches(g, n, p)
  {
    if n in path {
      p := n;
    } else {
      assert LeadsBack(g, s, path, n);
      p :| p in path && p in s.nodes && s.nodes[p].index <= s.nodes[n].index && Reaches(g, n, p);
    }
  }

  function Push(s: Search, node: Id): Search {
    Search(s.index + 1, s.nodes[node := NodeInfo(s.index, s.index, true)], s.stack + [node])
  }

  lemma PushKeepsInv(g: Digraph, s: Search, path: set<Id>, node: Id)
    requires Inv(g, s, path) && node in g && node !in s.nodes
    requires forall p :: p in path ==> Reaches(g, p, node)
    ensures Inv(g, Push(s, node), path + {node})
    ensures Open(g, s, Push(s, node), path, node)
  {
    var t := Push(s, node);
    var path' := path + {node};
    assert forall n :: OnStack(t, n) <==> OnStack(s, n) || n == node;
    forall n | OnStack(t, n) ensures n in t.stack {
      if n == node { assert t.stack[|s.stack|] == node; } else { assert n in s.stack; }
    }
    forall i, j | 0 <= i < j < |t.stack| ensures Older(t, i, j) {
      assert OnStack(s, s.stack[i]);
      assert j < |s.stack| ==> Older(s, i, j);
    }
    assert forall n :: Done(t, n) <==> Done(s, n);
    forall n | OnStack(t, n) && n !in path' ensures LeadsBack(g, t, path', n) {
      assert OnStack(s, n) && n !in path;
      var p := OpenNodeAbove(g, s, path, n);
      assert p in path';
    }
  }

  function Lower(s: Search, node: Id, lowLink: nat): Search
    requires node in s.nodes
  {
    s.(nodes := s.nodes[node := s.nodes[node].(lowLink := lowLink)])
  }

  /** Lowering a low link to the index of a reachable node on the stack. */
  lemma LowerKeepsInv(g: Digraph, s: Search, path: set<Id>, node: Id, u: Id)
    requires Inv(g, s, path) && node in s.nodes && OnStack(s, u) && Reaches(g, node, u)
    requires s.nodes[u].index <= s.nodes[node].lowLink
    ensures Inv(g, Lower(s, node, s.nodes[u].index), path)
    ensures LowLinkOk(g, Lower(s, node, s.nodes[u].index), node)
  {
    var t := Lower(s, node, s.nodes[u].index);
    assert forall n :: n in s.nodes <==> n in t.nodes;
    assert forall n :: n in s.nodes ==> t.nodes[n].index == s.nodes[n].index && t.nodes[n].onStack == s.nodes[n].onStack;
    assert forall n :: OnStack(t, n) <==> OnStack(s, n);
    forall i, j | 0 <= i < j < |t.stack| ensures Older(t, i, j) { assert Older(s, i, j); }
    assert StackOk(g, t) && PathOk(g, t, path);
    assert DoneOk(g, t) by { assert forall n :: Done(t, n) <==> Done(s, n); }
    forall n | OnStack(t, n) && n !in path ensures LeadsBack(g, t, path, n) {
      var p := OpenNodeAbove(g, s, path, n);
    }
    assert OnStack(t, u) && t.nodes[u].index == t.nodes[node].lowLink;
  }

  /** What a call that found no cycle says about its own node. */
  ghost predicate Closing(g: Digraph, s: Search, node: Id) {
    && node in s.nodes
    && (s.nodes[node].onStack ==> LowLinkOk(g, s, node) && s.nodes[node].lowLink < s.nodes[node].index)
    && (!s.nodes[node].onStack ==> s.nodes[node].lowLink == s.nodes[node].index)
  }

  ghost predicate Youngest(s: Search, path: set<Id>, node: Id) {
    node in s.nodes && forall p :: p in path ==> p in s.nodes && s.nodes[p].index < s.nodes[node].index
  }

  /** The open call of `node`, which started from `before`. */
  ghost predicate Open(g: Digraph, before: Search, s: Search, path: set<Id>, node: Id) {
    && Inv(g, s, path + {node})
    && node !in before.nodes && Extends(g, before, s, node)
    && before.stack < s.stack
    && Youngest(s, path, node)
    && s.nodes[node].onStack && LowLinkOk(g, s, node)
  }

  /** `m` has been dealt with in the loop over the successors of `node`. */
  ghost predicate Seen(s: Search, node: Id, m: Id) {
    node in s.nodes && m in s.nodes && (s.nodes[m].onStack ==> s.nodes[node].lowLink <= s.nodes[m].index)
  }

  lemma LowerKeepsOpen(g: Digraph, before: Search, s: Search, path: set<Id>, node: Id, u: Id)
    requires Open(g, before, s, path, node) && OnStack(s, u) && Reaches(g, node, u)
    requires s.nodes[u].index <= s.nodes[node].lowLink
    ensures Open(g, before, Lower(s, node, s.nodes[u].index), path, node)
  {
    LowerKeepsInv(g, s, path + {node}, node, u);
  }

  /** The caller's view of a call on `successor` that took the search from `s` to `t`. */
  lemma BackFromSuccessor(g: Digraph, before: Search, s: Search, t: Search, path: set<Id>, node: Id, successor: Id)
    requires Open(g, before, s, path, node) && successor !in s.nodes && Reaches(g, node, successor)
    requires Inv(g, t, path + {node}) && Extends(g, s, t, successor)
    ensures Open(g, before, t, path, node)
    ensures forall m :: Seen(s, node, m) ==> Seen(t, node, m)
  {
    BackExtends(g, before, s, t, node, successor);
    assert LowLinkOk(g, t, node) by {
      var w :| OnStack(s, w) && s.nodes[w].index == s.nodes[node].lowLink && Reaches(g, node, w);
      assert OnStack(t, w) && t.nodes[w] == s.nodes[w];
    }
  }

  /** Take over a smaller low link. */
  function Relax(s: Search, node: Id, lowLink: nat): Search
    requires node in s.nodes
  {
    if lowLink < s.nodes[node].lowLink then Lower(s, node, lowLink) else s
  }

  lemma RelaxKeepsSeen(s: Search, node: Id, lowLink: nat)
    requires node in s.nodes
    ensures forall m :: Seen(s, node, m) ==> Seen(Relax(s, node, lowLink), node, m)
  {
  }

  /** A finished successor passes its low link on; if that is smaller, it is the index of a node on the stack. */
  lemma PassLowLink(g: Digraph, before: Search, t: Search, path: set<Id>, node: Id, successor: Id)
    requires Open(g, before, t, path, node) && Reaches(g, node, successor) && Closing(g, t, successor)
    requires t.nodes[node].index <= t.nodes[successor].index
    ensures Open(g, before, Relax(t, node, t.nodes[successor].lowLink), path, node)
    ensures Seen(Relax(t, node, t.nodes[successor].lowLink), node, successor)
  {
    if t.nodes[successor].lowLink < t.nodes[node].lowLink {
      var u :| OnStack(t, u) && t.nodes[u].index == t.nodes[successor].lowLink && Reaches(g, successor, u);
      ReachesTransitive(g, node, successor, u);
      LowerKeepsOpen(g, before, t, path, node, u);
    }
  }

  /** A successor met before only counts while it is on the stack. */
  lemma SeeKnown(g: Digraph, before: Search, s: Search, path: set<Id>, node: Id, successor: Id)
    requires Open(g, before, s, path, node) && Reaches(g, node, successor) && successor in s.nodes
    ensures var t := if s.nodes[successor].onStack then Relax(s, node, s.nodes[successor].index) else s;
            Open(g, before, t, path, node) && Seen(t, node, successor)
  {
    if s.nodes[successor].onStack && s.nodes[successor].index < s.nodes[node].lowLink {
      LowerKeepsOpen(g, before, s, path, node, successor);
    }
  }

  lemma BackExtends(g: Digraph, before: Search, s: Search, t: Search, node: Id, successor: Id)
    requires Extends(g, before, s, node) && Extends(g, s, t, successor) && Reaches(g, node, successor)
    ensures Extends(g, before, t, node)
  {
    forall n | n in t.nodes && n !in s.nodes ensures Reaches(g, node, n) {
      ReachesTransitive(g, node, successor, n);
    }
  }

  /** Closing the call of `node` while it stays on the stack. */
  lemma LeaveKeepsInv(g: Digraph, s: Search, path: set<Id>, node: Id)
    requires Inv(g, s, path + {node}) && Youngest(s, path, node) && LowLinkOk(g, s, node)
    requires s.nodes[node].lowLink < s.nodes[node].index
    ensures Inv(g, s, path) && Closing(g, s, node)
  {
    var path' := path + {node};
    var u :| OnStack(s, u) && s.nodes[u].index == s.nodes[node].lowLink && Reaches(g, node, u);
    var q := OpenNodeAbove(g, s, path', u);
    assert q in path;
    ReachesTransitive(g, node, u, q);
    forall n | OnStack(s, n) && n !in path ensures LeadsBack(g, s, path, n) {
      var p := OpenNodeAbove(g, s, path', n);
      if p == node {
        ReachesTransitive(g, n, node, q);
      } else {
        assert p in path;
      }
    }
  }

  function Pop(s: Search): Search
    requires s.stack != [] && s.stack[|s.stack| - 1] in s.nodes
  {
    var top := s.stack[|s.stack| - 1];
    s.(stack := s.stack[..|s.stack| - 1], nodes := s.nodes[top := s.nodes[top].(onStack := false)])
  }

  /** Every node of `seen` has been dealt with in the loop over the successors of `node`. */
  ghost predicate AllSeen(s: Search, node: Id, seen: set<Id>) {
    forall m :: m in seen ==> Seen(s, node, m)
  }

  /** Closing the call of `node` by taking it off the top of the stack. */
  lemma PopKeepsInv(g: Digraph, before: Search, s: Search, path: set<Id>, node: Id)
    requires Open(g, before, s, path, node) && node in g && AllSeen(s, node, g[node])
    requires s.nodes[node].lowLink == s.nodes[node].index
    requires s.stack != [] && s.stack[|s.stack| - 1] == node
    ensures Inv(g, Pop(s), path) && Extends(g, before, Pop(s), node) && Closing(g, Pop(s), node)
  {
    var t := Pop(s);
    PopKeepsStack(g, s, path, node);
    PopKeepsDone(g, s, path, node);
    var path' := path + {node};
    forall n | OnStack(t, n) && n !in path ensures LeadsBack(g, t, path, n) {
      var p := OpenNodeAbove(g, s, path', n);
      assert p in path;
    }
  }

  /** The node on top is the youngest on the stack, and is there once. */
  lemma TopIsYoungest(g: Digraph, s: Search, n: Id)
    requires StackOk(g, s) && s.stack != [] && n in s.stack[..|s.stack| - 1]
    ensures n in s.stack && s.nodes[n].index < s.nodes[s.stack[|s.stack| - 1]].index
  {
    var i :| 0 <= i < |s.stack| - 1 && s.stack[i] == n;
    assert Older(s, i, |s.stack| - 1);
  }

  lemma PopKeepsStack(g: Digraph, s: Search, path: set<Id>, node: Id)
    requires Inv(g, s, path + {node}) && Youngest(s, path, node)
    requires s.stack != [] && s.stack[|s.stack| - 1] == node
    ensures StackOk(g, Pop(s)) && PathOk(g, Pop(s), path)
    ensures forall n :: OnStack(Pop(s), n) <==> OnStack(s, n) && n != node
    ensures forall n :: OnStack(Pop(s), n) ==> s.nodes[n].index < s.nodes[node].index
  {
    var t := Pop(s);
    forall n | OnStack(t, n) ensures n in t.stack && s.nodes[n].index < s.nodes[node].index {
      assert OnStack(s, n) && n != node;
      assert s.stack == t.stack + [node];
      TopIsYoungest(g, s, n);
    }
    forall i | 0 <= i < |t.stack| ensures OnStack(t, t.stack[i]) {
      assert OnStack(s, s.stack[i]) && Older(s, i, |t.stack|);
    }
    forall i, j | 0 <= i < j < |t.stack| ensures Older(t, i, j) { assert Older(s, i, j); }
    forall p | p in path ensures OnStack(t, p) { assert p in path + {node} && OnStack(s, p); }
  }

  lemma PopKeepsDone(g: Digraph, s: Search, path: set<Id>, node: Id)
    requires Inv(g, s, path + {node}) && Youngest(s, path, node) && node in g && AllSeen(s, node, g[node])
    requires s.nodes[node].lowLink == s.nodes[node].index
    requires s.stack != [] && s.stack[|s.stack| - 1] == node
    ensures DoneOk(g, Pop(s))
  {
    var t := Pop(s);
    PopKeepsStack(g, s, path, node);
    assert forall n :: Done(t, n) <==> Done(s, n) || n == node;
    // a successor still on the stack would be younger than node, yet node is on top
    forall m | m in g[node] && m != node ensures Done(s, m) {
      if OnStack(s, m) { assert false; }
    }
    var done := set n | n in s.nodes && Done(s, n);
    forall n | n in done && n in g ensures g[n] <= done {
      assert forall m :: m in g[n] ==> Done(s, m);
    }
    forall n, m | Done(t, n) && Reaches(g, n, m) && Reaches(g, m, n) ensures n == m {
      if n == node && m != node {
        var k := ReachesFirstEdge(g, node, m);
        NodeReachesDone(g, done, node, k, m);
        ReachesStaysIn(g, done, m, node);
        assert false;
      }
    }
  }

  /** From a self-edge or a finished successor of `node`, any other node is reached among the finished. */
  lemma NodeReachesDone(g: Digraph, done: set<Id>, node: Id, k: Id, m: Id)
    requires forall n :: n in done && n in g ==> g[n] <= done
    requires node in g && (forall n :: n in g[node] && n != node ==> n in done)
    requires k in g[node] && Reaches(g, k, m) && m != node
    ensures m in done
  {
    var s := done + {node};
    ReachesStaysIn(g, s, k, m);
  }

  /** Any other node on top of the stack when `node` closes its component shares a cycle with it. */
  lemma TopSharesCycle(g: Digraph, s: Search, path: set<Id>, node: Id, top: Id)
    requires Inv(g, s, path + {node}) && Youngest(s, path, node)
    requires OnStack(s, top) && top != node && Reaches(g, node, top)
    ensures HasCycle(g)
  {
    var path' := path + {node};
    var p := OpenNodeAbove(g, s, path', top);
    if p != node {
      assert p in path && node in path' && Reaches(g, p, node);
      ReachesTransitive(g, top, p, node);
    }
  }

  /** While the call of `node` is open, the top of the stack was pushed by it. */
  lemma TopIsNew(g: Digraph, before: Search, s: Search, path: set<Id>, node: Id)
    requires Open(g, before, s, path, node)
    ensures Reaches(g, node, s.stack[|s.stack| - 1])
  {
    var top := s.stack[|s.stack| - 1];
    assert node in s.stack && top in s.stack;
    if node != top {
      assert s.stack == s.stack[..|s.stack| - 1] + [top];
      TopIsYoungest(g, s, node);
    }
  }

  /** Every open node reaches each successor of the innermost one. */
  lemma PathReaches(g: Digraph, before: Search, s: Search, path: set<Id>, node: Id, successor: Id)
    requires Open(g, before, s, path, node) && node in g && successor in g[node]
    ensures forall p :: p in path + {node} ==> Reaches(g, p, successor)
  {
    forall p | p in path + {node} ensures Reaches(g, p, successor) {
      ReachesEdge(g, node, successor);
      ReachesTransitive(g, p, node, successor);
    }
  }

  /** A call on a node not met before. The search's shared variables go in as `before` and come out as `s`. */
  method StrongConnect(graph: map<Id, ContainerNode>, before: Search, node: Id, ghost path: set<Id>)
    returns (s: Search, cycle: bool, err: bool)
    requires Inv(Edges(graph), before, path)
    requires node in graph && node !in before.nodes
    requires forall p :: p in path ==> Reaches(Edges(graph), p, node)
    ensures !err
    ensures cycle ==> HasCycle(Edges(graph))
    ensures !cycle ==> Inv(Edges(graph), s, path) && Extends(Edges(graph), before, s, node)
    ensures !cycle ==> Closing(Edges(graph), s, node)
    decreases graph.Keys - before.nodes.Keys, 0
  {
    ghost var g := Edges(graph);
    PushKeepsInv(g, before, path, node);
    s := Search(before.index + 1, before.nodes[node := NodeInfo(before.index, before.index, true)], before.stack + [node]);

    s, cycle, err := VisitSuccessors(graph, s, node, path, before);
    if err {
      return s, false, true;
    } else if cycle {
      return s, true, false;
    }
    s, cycle, err := CloseComponent(graph, s, node, path, before);
  }

  method VisitSuccessors(graph: map<Id, ContainerNode>, s0: Search, node: Id, ghost path: set<Id>, ghost before: Search)
    returns (s: Search, cycle: bool, err: bool)
    requires node in graph
    requires Open(Edges(graph), before, s0, path, node)
    ensures !err
    ensures cycle ==> HasCycle(Edges(graph))
    ensures !cycle ==> Open(Edges(graph), before, s, path, node)
    ensures !cycle ==> AllSeen(s, node, Edges(graph)[node])
    decreases graph.Keys - s0.nodes.Keys, 2
  {
    s := s0;
    var deps := graph[node].dependsOn;
    ElemsTakeAll(deps);
    for i := 0 to |deps|
      invariant Open(Edges(graph), before, s, path, node)
      invariant s0.nodes.Keys <= s.nodes.Keys
      invariant AllSeen(s, node, Elems(deps[..i]))
    {
      ElemsTakeOneMore(deps, i);
      s, cycle, err := VisitSuccessor(graph, s, node, deps[i], path, before, Elems(deps[..i]));
      if err {
        return s, false, true;
      } else if cycle {
        return s, true, false;
      }
    }
    return s, false, false;
  }

  /** One turn of the loop over the nodes that `node` points to. */
  method VisitSuccessor(graph: map<Id, ContainerNode>, s0: Search, node: Id, successor: Id,
                        ghost path: set<Id>, ghost before: Search, ghost seen: set<Id>)
    returns (s: Search, cycle: bool, err: bool)
    requires node in graph && successor in graph[node].dependsOn
    requires Open(Edges(graph), before, s0, path, node) && AllSeen(s0, node, seen)
    ensures !err
    ensures cycle ==> HasCycle(Edges(graph))
    ensures !cycle ==> Open(Edges(graph), before, s, path, node)
    ensures !cycle ==> s0.nodes.Keys <= s.nodes.Keys && AllSeen(s, node, seen + {successor})
    decreases graph.Keys - s0.nodes.Keys, 1
  {
    ghost var g := Edges(graph);
    s := s0;
    assert successor in g[node];
    ReachesEdge(g, node, successor);
    if successor !in s.nodes {
      PathReaches(g, before, s, path, node, successor);
      s, cycle, err := StrongConnect(graph, s, successor, path + {node});
      if err {
        return s, false, true;
      } else if cycle {
        return s, true, false;
      }
      BackFromSuccessor(g, before, s0, s, path, node, successor);
      PassLowLink(g, before, s, path, node, successor);
      var successorInfo := s.nodes[successor];
      RelaxKeepsSeen(s, node, successorInfo.lowLink);
      if successorInfo.lowLink < s.nodes[node].lowLink {
        s := s.(nodes := s.nodes[node := s.nodes[node].(lowLink := successorInfo.lowLink)]);
      }
    } else {
      SeeKnown(g, before, s, path, node, successor);
      var successorInfo := s.nodes[successor];
      RelaxKeepsSeen(s, node, successorInfo.index);
      if successorInfo.index < s.nodes[node].lowLink && successorInfo.onStack {
        s := s.(nodes := s.nodes[node := s.nodes[node].(lowLink := successorInfo.index)]);
      }
    }
    return s, false, false;
  }

  /** The end of a call: pop `node` if it closes its component, and report a cycle if it is not alone. */
  method CloseComponent(graph: map<Id, ContainerNode>, s0: Search, node: Id, ghost path: set<Id>, ghost before: Search)
    returns (s: Search, cycle: bool, err: bool)
    requires node in graph
    requires Open(Edges(graph), before, s0, path, node)
    requires AllSeen(s0, node, Edges(graph)[node])
    ensures !err
    ensures cycle ==> HasCycle(Edges(graph))
    ensures !cycle ==> Inv(Edges(graph), s, path) && Extends(Edges(graph), before, s, node)
    ensures !cycle ==> Closing(Edges(graph), s, node)
  {
    ghost var g := Edges(graph);
    s := s0;
    if s.nodes[node].lowLink == s.nodes[node].index {
      var l := |s.stack|;
      if l == 0 {
        return s, false, true;
      }
      var topOfStack := s.stack[l - 1];
      assert OnStack(s0, topOfStack);
      s := s.(stack := s.stack[..l - 1]);
      if topOfStack !in s.nodes {
        return s, false, true;
      }
      s := s.(nodes := s.nodes[topOfStack := s.nodes[topOfStack].(onStack := false)]);
      if topOfStack != node {
        TopIsNew(g, before, s0, path, node);
        TopSharesCycle(g, s0, path, node, topOfStack);
        return s, true, false;
      }
      PopKeepsInv(g, before, s0, path, node);
      assert s == Pop(s0);
    } else {
      LeaveKeepsInv(g, s, path, node);
    }
    return s, false, false;
  }

  /** With no call open nothing is left on the stack, so every node is finished. */
  lemma NothingLeftOpen(g: Digraph, s: Search, n: Id)
    requires Inv(g, s, {}) && n in s.nodes
    ensures Done(s, n) && OffCycle(g, n)
  {
    if OnStack(s, n) { assert false; }
    assert Done(s, n);
  }

  lemma FinishedHasNoCycle(g: Digraph, s: Search)
    requires Inv(g, s, {}) && s.nodes.Keys == g.Keys
    ensures !HasCycle(g)
  {
    forall u, v | Reaches(g, u, v) && Reaches(g, v, u) ensures u == v {
      if u != v {
        var m := ReachesFirstEdge(g, u, v);
        NothingLeftOpen(g, s, u);
      }
    }
  }

  /** Reports a cycle exactly when two distinct nodes depend on each other, whatever the order in which
      the nodes are taken, and never fails. */
  method DetectCycles(graph: ContainerGraph) returns (cycle: bool, err: bool)
    requires Closed(Edges(graph.nodes))
    ensures !err
    ensures cycle <==> HasCycle(Edges(graph.nodes))
  {
    ghost var g := Edges(graph.nodes);
    var search := Search(0, map[], []);
    var order := KeysInSomeOrder(graph.nodes.Keys);
    for i := 0 to |order|
      invariant Inv(g, search, {})
      invariant forall j :: 0 <= j < i ==> order[j] in search.nodes
    {
      if order[i] !in search.nodes {
        var found, failed;
        search, found, failed := StrongConnect(graph.nodes, search, order[i], {});
        if failed {
          return false, true;
        } else if found {
          return true, false;
        }
      }
    }
    FinishedHasNoCycle(g, search);
    return false, false;
  }
}
