/** Removing the containers of a dependency graph, dependents first. */
module RemoveTraversal {
  import opened Digraphs
  import opened Containers
  import opened ContainerGraphs
  import opened Traversals

  /** What a node's removal would meet. A removal that reports an error may still have taken the container
      out of the state; one that reports none has. */
  datatype Turn = Turn(syncFails: bool, infraSaveFails: bool, removeFails: bool, goneAnyway: bool)

  datatype RemoveError = DependentFailed | DependentStillExists | SyncFailed | InfraSaveFailed | RemovalFailed

  type World = Id -> Turn

  predicate Fails(t: Turn) {
    t.syncFails || t.infraSaveFails || t.removeFails
  }

  ghost function Failing(g: Digraph, w: World): set<Id> {
    set n | n in g && Fails(w(n))
  }

  /** `present` are the containers still in the state, and `attempts` logs the removals that were tried.
      `r` leads from a container to its dependents. */
  datatype Removals = Removals(present: set<Id>, attempts: seq<Id>)

  /** A removal was tried at most once per container, after those of all its dependents, and only with
      every dependent gone; nothing else disappears, and whoever was visited without error is gone. */
  ghost predicate RemovalsOk(r: Digraph, p: Progress, m: Removals) {
    && m.present <= r.Keys
    && NoDuplicates(m.attempts) && OrderOk(r, m.attempts)
    && (forall n {:trigger n in m.attempts} :: n in m.attempts ==> n in p.visited)
    && (forall n {:trigger n in m.present} :: n in r && n !in m.present ==> n in m.attempts)
    && (forall n, s {:trigger s in r[n]} :: n in m.attempts && n in r && s in r[n] ==> s !in m.present)
    && (forall n {:trigger n in p.visited} :: n in p.visited && n !in p.errors ==> n !in m.present)
  }

  /** `m'` continues `m`, without trying again for anyone in `visited`. */
  ghost predicate Advances(visited: set<Id>, m: Removals, m': Removals) {
    && m'.present <= m.present && m.attempts <= m'.attempts
    && forall n {:trigger n in m'.attempts} :: n in visited && n in m'.attempts ==> n in m.attempts
  }

  /** The removal of `n`, tried with the dependents that `m` leaves. */
  function TryRemoval(m: Removals, n: Id, t: Turn): Removals {
    if t.syncFails || t.infraSaveFails then m
    else Removals(if t.removeFails && !t.goneAnyway then m.present else m.present - {n}, m.attempts + [n])
  }

  lemma TryRemovalOk(r: Digraph, p: Progress, q: Progress, m: Removals, n: Id, t: Turn)
    requires Closed(r) && RemovalsOk(r, p, m) && n in r && n !in m.attempts && n in q.visited
    requires p.visited <= q.visited
    requires forall k :: k in q.visited && k !in q.errors && k != n ==> k in p.visited && k !in p.errors
    requires n !in q.errors ==> !Fails(t)
    requires r[n] !! m.present
    ensures RemovalsOk(r, q, TryRemoval(m, n, t)) && Advances(p.visited - {n}, m, TryRemoval(m, n, t))
  {
    var m' := TryRemoval(m, n, t);
    if m' != m {
      NoDuplicatesAppend(m.attempts, n);
      assert m'.attempts[..|m.attempts|] == m.attempts;
      forall i, s | 0 <= i < |m'.attempts| && m'.attempts[i] in r && s in r[m'.attempts[i]] ensures s in m'.attempts[..i] {
        if i < |m.attempts| {
          assert s in r[m.attempts[i]];
          assert m'.attempts[..i] == m.attempts[..i];
        } else {
          assert s !in m.present;
        }
      }
    }
  }

  /** What the turn of `n` came to: a removal was tried unless an earlier step failed, and the container is gone
      unless the removal was not tried or left it there. */
  ghost predicate TurnTold(w: World, m: Removals, n: Id) {
    && (n in m.attempts <==> !w(n).syncFails && !w(n).infraSaveFails)
    && (n !in m.present <==> n in m.attempts && (!w(n).removeFails || w(n).goneAnyway))
  }

  ghost predicate TurnsTold(w: World, order: seq<Id>, m: Removals) {
    forall n {:trigger TurnTold(w, m, n)} :: n in order ==> TurnTold(w, m, n)
  }

  lemma TurnsToldAfter(w: World, p: Progress, q: Progress, m: Removals, n: Id, m': Removals)
    requires TurnsTold(w, p.order, m) && n !in p.order && (q.order == p.order || q.order == p.order + [n])
    requires m'.attempts == m.attempts || m'.attempts == m.attempts + [n]
    requires m'.present == m.present || m'.present == m.present - {n}
    requires q.order != p.order ==> TurnTold(w, m', n)
    ensures TurnsTold(w, q.order, m')
  {
    forall k | k in q.order ensures TurnTold(w, m', k) {
      if k != n { assert TurnTold(w, m, k); }
    }
  }

  /** The edge lists of `n` are those of the dependency graph that `r` is the reverse of. */
  ghost predicate EdgesListed(nodes: map<Id, ContainerNode>, r: Digraph, n: Id) {
    n in nodes && n in r && Lists(nodes[n].dependedOn, r[n]) && Lists(nodes[n].dependsOn, Reverse(r)[n])
  }

  /** The maps passed by reference through the recursion, and the graph they are about. */
  class RemoveRun {
    const nodes: map<Id, ContainerNode>
    const world: World
    ghost const r: Digraph
    ghost const fails: set<Id>
    var ctrsVisited: set<Id>
    var ctrErrors: map<Id, RemoveError>
    var present: set<Id>
    var attempts: seq<Id>
    var order: seq<Id>

    constructor (graph: ContainerGraph, world: World, ghost g: Digraph)
      requires Holds(graph, g)
      ensures Valid() && nodes == graph.nodes && this.world == world
      ensures r == Reverse(g) && fails == Failing(r, world)
      ensures State() == Progress({}, {}, [])
    {
      this.nodes := graph.nodes;
      this.world := world;
      this.r := Reverse(g);
      this.fails := Failing(Reverse(g), world);
      ctrsVisited, ctrErrors, present, attempts, order := {}, map[], graph.nodes.Keys, [], [];
      new;
      ReverseReverse(g);
      forall n | n in nodes ensures EdgesListed(nodes, r, n) {
        assert NodeSpells(graph.nodes, graph.notDependedOnNodes, g, n);
      }
    }

    ghost predicate Valid()
      reads this
    {
      && Closed(r)
      && (forall n {:trigger EdgesListed(nodes, r, n)} :: n in r ==> EdgesListed(nodes, r, n))
      && (forall n {:trigger world(n)} :: n in r ==> (n in fails <==> Fails(world(n))))
      && RemovalsOk(r, State(), Gone())
      && TurnsTold(world, order, Gone())
    }

    ghost function State(): Progress
      reads this
    {
      Progress(ctrsVisited, ctrErrors.Keys, order)
    }

    ghost function Gone(): Removals
      reads this
    {
      Removals(present, attempts)
    }

    /** Does anyone who depends on `node` remain to be visited? */
    method AllVisited(node: Id) returns (visited: bool)
      requires Valid() && node in r
      ensures visited <==> r[node] <= ctrsVisited
    {
      assert EdgesListed(nodes, r, node);
      var deps := nodes[node].dependedOn;
      for i := 0 to |deps|
        invariant forall j :: 0 <= j < i ==> deps[j] in ctrsVisited
      {
        if deps[i] !in ctrsVisited {
          return false;
        }
      }
      return true;
    }

    /** Is any container that depends on `node` still in the state? */
    method AnyPresent(node: Id) returns (found: bool)
      requires Valid() && node in r
      ensures found <==> !(r[node] !! present)
    {
      assert EdgesListed(nodes, r, node);
      var deps := nodes[node].dependedOn;
      found := false;
      for i := 0 to |deps|
        invariant found <==> exists j :: 0 <= j < i && deps[j] in present
      {
        if deps[i] in present {
          found := true;
        }
      }
    }

    /** Someone who depends on `node` failed: mark it as visited, and set an error. */
    method SetError(node: Id)
      requires Valid() && node !in ctrsVisited
      modifies this`ctrsVisited, this`ctrErrors
      ensures Valid() && State() == MarkFailed(old(State()), node)
    {
      ctrsVisited := ctrsVisited + {node};
      ctrErrors := ctrErrors[node := DependentFailed];
      KeysOfUpdate(old(ctrErrors), node, DependentFailed);
    }

    /** Steps of a removal; the first that fails gives the error and skips the rest. */
    method RunTurn(node: Id, stillExists: bool) returns (err: Option<RemoveError>)
      modifies this`present, this`attempts
      ensures Gone() == if stillExists then old(Gone()) else TryRemoval(old(Gone()), node, world(node))
      ensures err.Some? <==> stillExists || world(node).syncFails || world(node).infraSaveFails || world(node).removeFails
      ensures attempts == old(attempts) + (if stillExists || world(node).syncFails || world(node).infraSaveFails then [] else [node])
      ensures present == if attempts != old(attempts) && (!world(node).removeFails || world(node).goneAnyway)
                         then old(present) - {node} else old(present)
      ensures stillExists ==> err == Some(DependentStillExists)
    {
      var turn := world(node);
      err := None;
      if stillExists {
        err := Some(DependentStillExists);
      }
      if err.None? {
        if turn.syncFails {
          err := Some(SyncFailed);
        }
      }
      if err.None? {
        if turn.infraSaveFails {
          err := Some(InfraSaveFailed);
        }
      }
      if err.None? {
        attempts := attempts + [node];
        if turn.removeFails {
          err := Some(RemovalFailed);
          if turn.goneAnyway {
            present := present - {node};
          }
        } else {
          present := present - {node};
        }
      }
    }

    /** Going to try to remove `node`: nobody who depends on it is left to visit. On a node already marked as
        failed, this adds nothing to who was visited and who has an error. */
    method TryRemove(node: Id) returns (ctrErrored: bool)
      requires Valid() && node in r && node !in attempts && node !in order
      requires node in ctrsVisited ==> node in ctrErrors
      requires node !in ctrsVisited ==> node !in ctrErrors && r[node] !! present
      modifies this`ctrsVisited, this`ctrErrors, this`present, this`attempts, this`order
      ensures Valid() && Advances(old(ctrsVisited) - {node}, old(Gone()), Gone())
      ensures old(node in ctrsVisited) ==> State() == old(State())
      ensures old(node !in ctrsVisited) ==> State() == TakeTurn(fails, old(State()), node)
      ensures old(node !in ctrsVisited) ==> (ctrErrored <==> node in fails)
    {
      ghost var p, m := State(), Gone();
      var first := node !in ctrsVisited;
      var stillExists := AnyPresent(node);
      ctrsVisited := ctrsVisited + {node};
      var err := RunTurn(node, stillExists);
      if err.Some? {
        ctrErrors := ctrErrors[node := err.value];
        KeysOfUpdate(old(ctrErrors), node, err.value);
      }
      if first {
        order := order + [node];
      }
      ctrErrored := err.Some?;
      assert State() == if first then TakeTurn(fails, p, node) else p;
      if !stillExists {
        TryRemovalOk(r, p, State(), m, node, world(node));
      }
      assert node in m.present;
      TurnsToldAfter(world, p, State(), m, node, Gone());
    }

    method RemoveNode(node: Id, setError: bool)
      requires Valid() && node in r && Inv(r, fails, State())
      requires node !in ctrsVisited && !setError ==> Propagated(r, State())
      requires node !in ctrsVisited && setError ==> exists d :: d in r[node] && d in ctrErrors
      modifies this`ctrsVisited, this`ctrErrors, this`present, this`attempts, this`order
      ensures Valid() && Advances(old(ctrsVisited), old(Gone()), Gone())
      ensures old(node in ctrsVisited) ==> State() == old(State()) && Gone() == old(Gone())
      ensures old(node !in ctrsVisited) ==> Visited(r, fails, old(State()), State(), node, setError)
      decreases r.Keys - ctrsVisited, 1
    {
      ghost var p := State();
      if node in ctrsVisited {
        return;
      }
      if setError {
        FailNode(node);
      }
      assert node !in order by { if HadTurn(p, node) { assert false; } }
      var visited := AllVisited(node);
      if !visited {
        return;
      }
      if !setError {
        TakeTurnKeepsInv(r, fails, p, node);
        ReadyToRemove(r, fails, p, Gone(), node);
      }
      var ctrErrored := TryRemove(node);
      RemoveDependencies(node, ctrErrored, !setError);
      if !setError {
        TurnVisited(r, fails, p, State(), node);
      }
    }

    /** Someone who depends on `node` failed: mark it as failed and recurse. */
    method FailNode(node: Id)
      requires Valid() && node in r && Inv(r, fails, State()) && node !in ctrsVisited
      requires exists d :: d in r[node] && d in ctrErrors
      modifies this`ctrsVisited, this`ctrErrors, this`present, this`attempts, this`order
      ensures Valid() && Advances(old(ctrsVisited) + {node}, old(Gone()), Gone())
      ensures Visited(r, fails, old(State()), State(), node, true)
      ensures node !in attempts && Reverse(r)[node] <= ctrsVisited
      decreases r.Keys - ctrsVisited, 0
    {
      ghost var p := State();
      ghost var d :| d in r[node] && d in ctrErrors;
      MarkFailedKeepsInv(r, fails, p, node, d);
      SetError(node);
      RemoveDependencies(node, true, true);
      FailedNodeVisited(r, fails, p, State(), node, d);
      assert forall s :: s in Reverse(r)[node] ==> s in r && node in r[s];
    }

    /** Recurse to everyone `node` depends on. After a failure has spread, a second round finds them all visited. */
    method RemoveDependencies(node: Id, setError: bool, ghost spread: bool)
      requires Valid() && node in r && node in ctrsVisited && Inv(r, fails, State())
      requires spread ==> (setError <==> node in ctrErrors) && (!setError ==> Propagated(r, State()))
      requires !spread ==> Reverse(r)[node] <= ctrsVisited
      modifies this`ctrsVisited, this`ctrErrors, this`present, this`attempts, this`order
      ensures Valid() && Advances(old(ctrsVisited), old(Gone()), Gone())
      ensures spread ==> Spreading(r, fails, old(State()), State(), node, {})
      ensures !spread ==> State() == old(State()) && Gone() == old(Gone())
      decreases r.Keys - ctrsVisited, 2
    {
      ghost var p, m := State(), Gone();
      assert EdgesListed(nodes, r, node);
      var successors := nodes[node].dependsOn;
      if spread { SpreadNothing(r, fails, p, node, successors); }
      for i := 0 to |successors|
        invariant Valid() && Advances(p.visited, m, Gone())
        invariant spread ==> Spreading(r, fails, p, State(), node, Elems(successors[i..]))
        invariant !spread ==> State() == p && Gone() == m
      {
        var s := successors[i];
        assert s in Reverse(r)[node];
        assert s in r && node in r[s];
        ElemsDropOneMore(successors, i);
        ghost var q := State();
        RemoveNode(s, setError);
        if spread {
          SpreadOver(r, fails, p, q, State(), node, Elems(successors[i..]), s);
        }
      }
    }
  }

  /** A node whose dependents were all visited, none with an error, finds none of them in the state. */
  lemma ReadyToRemove(r: Digraph, fails: set<Id>, p: Progress, m: Removals, n: Id)
    requires Inv(r, fails, p) && Propagated(r, p) && RemovalsOk(r, p, m)
    requires n in r && n !in p.visited && r[n] <= p.visited
    ensures r[n] !! m.present && n !in p.order && n !in m.attempts
  {
    forall s | s in r[n] ensures s !in m.present { AwaitedAreSound(r, fails, p, n, s); }
    if HadTurn(p, n) { assert false; }
  }

  /** A call on a node visited before changes nothing, and so has spread what it had to. */
  lemma SpreadOver(r: Digraph, fails: set<Id>, p: Progress, q: Progress, t: Progress, n: Id, rest: set<Id>, s: Id)
    requires n in r && s in r && n in r[s] && s in rest
    requires Spreading(r, fails, p, q, n, rest)
    requires if s in q.visited then t == q else Visited(r, fails, q, t, s, n in p.errors)
    ensures Spreading(r, fails, p, t, n, rest - {s})
  {
    if s in q.visited {
      assert n in p.errors ==> s in q.errors by {
        if n in p.errors && HadTurn(q, s) { assert false; }
      }
    } else {
      SpreadOneMore(r, fails, p, q, t, n, rest, s);
    }
  }

  /** Removes every container of the graph, from the nodes that nothing depends on, in any order. */
  method RemoveAll(graph: ContainerGraph, world: World, ghost g: Digraph)
    returns (p: Progress, errors: map<Id, RemoveError>, m: Removals)
    requires Holds(graph, g) && NoCycle(g)
    ensures Outcome(Reverse(g), Failing(Reverse(g), world), p)
    ensures RemovalsOk(Reverse(g), p, m) && errors.Keys == p.errors && TurnsTold(world, p.order, m)
    ensures forall n {:trigger n in p.errors} :: n in p.order ==>
              (n in p.errors <==> world(n).syncFails || world(n).infraSaveFails || world(n).removeFails)
  {
    var run := new RemoveRun(graph, world, g);
    ghost var r := Reverse(g);
    ghost var start := run.State();
    var rest := graph.notDependedOnNodes;
    while rest != {}
      invariant rest <= graph.notDependedOnNodes
      invariant run.Valid() && Inv(r, run.fails, run.State()) && Propagated(r, run.State())
      invariant NobodyForgotten(r, start, run.State())
      invariant graph.notDependedOnNodes - rest <= run.ctrsVisited
      decreases rest
    {
      var node :| node in rest;
      assert NodeSpells(graph.nodes, graph.notDependedOnNodes, g, node);
      ghost var before := run.State();
      run.RemoveNode(node, false);
      NobodyForgottenSince(r, start, before, run.State());
      rest := rest - {node};
    }
    p, errors := Progress(run.ctrsVisited, run.ctrErrors.Keys, run.order), run.ctrErrors;
    m := Removals(run.present, run.attempts);
    ReverseReverse(g);
    ReverseNoCycle(g);
    forall n | n in Sinks(r) ensures n in p.visited {
      assert NodeSpells(graph.nodes, graph.notDependedOnNodes, g, n);
    }
    FinishedHasOutcome(r, run.fails, p);
    forall n | n in p.order ensures n in p.errors <==> Fails(world(n)) { assert HadTurn(p, n) && TurnOk(r, run.fails, p, n); }
  }

  /** Whatever failed and wherever the traversal stands, no container is left without one it depends on. */
  lemma PresentStaysClosed(g: Digraph, p: Progress, m: Removals, n: Id, d: Id)
    requires Closed(g) && RemovalsOk(Reverse(g), p, m) && n in g && d in g[n] && n in m.present
    ensures d in m.present
  {
    assert n in Reverse(g)[d];
  }

  /** A container is removed after everything that depends on it, directly or not, which by then is gone. */
  lemma RemovedAfterDependents(g: Digraph, p: Progress, m: Removals, i: nat, s: Id)
    requires Closed(g) && RemovalsOk(Reverse(g), p, m)
    requires i < |m.attempts| && m.attempts[i] in g && s in g && s != m.attempts[i] && Reaches(g, s, m.attempts[i])
    ensures s in m.attempts[..i] && s !in m.present
  {
    var r, n := Reverse(g), m.attempts[i];
    ReachesReverse(g, s, n);
    var k := ReachesFirstEdge(r, n, s);
    assert n in m.attempts && k in r[n];
    var earlier := Elems(m.attempts[..i]);
    assert k in r[m.attempts[i]];
    forall x, d | x in earlier && x in r && d in r[x] ensures d in earlier {
      var j :| 0 <= j < i && m.attempts[j] == x;
      assert d in r[m.attempts[j]];
    }
    ReachesStaysIn(r, earlier, k, s);
    ReverseReverse(g);
    forall x, d | x in r.Keys - m.present && x in r && d in r[x] ensures d in r.Keys - m.present {
      assert x in m.attempts;
    }
    ReachesStaysIn(r, r.Keys - m.present, k, s);
  }

  /** Everything goes unless it, or something that depends on it, fails to be removed or depends on itself. */
  lemma GoneUnlessFailed(g: Digraph, w: World, p: Progress, m: Removals, n: Id)
    requires Outcome(Reverse(g), Failing(Reverse(g), w), p) && RemovalsOk(Reverse(g), p, m)
    requires n in m.present
    ensures Blocked(Reverse(g), n) || Doomed(Reverse(g), Failing(Reverse(g), w), n)
  {
    assert n in p.visited ==> n in p.errors;
  }
}
