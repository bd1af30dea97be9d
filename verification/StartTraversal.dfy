/** Starting the containers of a dependency graph, dependencies first. */
module StartTraversal {
  import opened Digraphs
  import opened Containers
  import opened ContainerGraphs
  import opened Traversals

  /** What a node's turn would meet: the state of the world is an input. A node gets one turn at most. */
  datatype Turn = Turn(
    depCheckFails: bool,
    depsStopped: bool,
    syncFails: bool,
    isInitCtr: bool,
    status: ContainerStatus,
    startFails: bool)

  datatype StartError = DependencyFailed | DepCheckFailed | DepsNotRunning | SyncFailed | StartFailed

  type World = Id -> Turn

  /** Whether the turn calls the container's start or restart. */
  predicate Calls(t: Turn, restart: bool) {
    && !t.depCheckFails && !t.depsStopped && !t.syncFails && !t.isInitCtr
    && if restart then t.status != Paused && t.status != Unknown else t.status != Running
  }

  function TurnError(t: Turn, restart: bool): Option<StartError> {
    if t.depCheckFails then Some(DepCheckFailed)
    else if t.depsStopped then Some(DepsNotRunning)
    else if t.syncFails then Some(SyncFailed)
    else if Calls(t, restart) && t.startFails then Some(StartFailed)
    else None
  }

  ghost function Failing(g: Digraph, w: World, restart: bool): set<Id> {
    set n | n in g && TurnError(w(n), restart).Some?
  }

  /** The containers started or restarted in a sequence of turns. */
  function CallsOf(w: World, restart: bool, order: seq<Id>): seq<Id> {
    if order == [] then []
    else
      var last := order[|order| - 1];
      CallsOf(w, restart, order[..|order| - 1]) + (if Calls(w(last), restart) then [last] else [])
  }

  /** The error recorded for a node is that of its own turn if it had one. */
  ghost predicate ErrorsTold(w: World, restart: bool, errors: map<Id, StartError>, order: seq<Id>) {
    forall n {:trigger errors[n]} :: n in errors ==>
      errors[n] == if n in order then TurnError(w(n), restart).GetOr(DependencyFailed) else DependencyFailed
  }

  /** What runs is what ran before and what was started without a failure. */
  ghost predicate RunningTold(w: World, g: Digraph, running: set<Id>, calls: seq<Id>) {
    forall n {:trigger RunTold(w, g, running, calls, n)} :: RunTold(w, g, running, calls, n)
  }

  ghost predicate RunTold(w: World, g: Digraph, running: set<Id>, calls: seq<Id>, n: Id) {
    n in running <==> n in g && (w(n).status == Running || (n in calls && !w(n).startFails))
  }

  lemma RunningToldAfter(w: World, g: Digraph, running: set<Id>, calls: seq<Id>, n: Id)
    requires RunningTold(w, g, running, calls) && n in g
    ensures RunningTold(w, g, if w(n).startFails then running else running + {n}, calls + [n])
  {
    var after := if w(n).startFails then running else running + {n};
    forall k ensures RunTold(w, g, after, calls + [n], k) {
      assert RunTold(w, g, running, calls, k);
      assert k in calls + [n] <==> k in calls || k == n;
    }
  }

  /** The steps of a turn; the first that fails gives the error and skips the rest. */
  method RunTurn(turn: Turn, restart: bool) returns (err: Option<StartError>, called: bool)
    ensures err == TurnError(turn, restart)
    ensures called <==>
              && !turn.depCheckFails && !turn.depsStopped && !turn.syncFails && !turn.isInitCtr
              && (if restart then turn.status != Paused && turn.status != Unknown else turn.status != Running)
    ensures err.Some? <==> turn.depCheckFails || turn.depsStopped || turn.syncFails || (called && turn.startFails)
    ensures err == Some(DepCheckFailed) <==> turn.depCheckFails
    ensures err == Some(StartFailed) <==> called && turn.startFails
    ensures err == Some(DepsNotRunning) ==> turn.depsStopped
    ensures err == Some(SyncFailed) ==> turn.syncFails && !turn.depsStopped
  {
    err, called := None, false;
    if turn.depCheckFails {
      err := Some(DepCheckFailed);
    } else if turn.depsStopped {
      err := Some(DepsNotRunning);
    }
    if err.None? {
      if turn.syncFails {
        err := Some(SyncFailed);
      }
    }
    if err.None? && !turn.isInitCtr {
      if !restart && turn.status != Running {
        called := true;
        if turn.startFails {
          err := Some(StartFailed);
        }
      }
      if restart && turn.status != Paused && turn.status != Unknown {
        called := true;
        if turn.startFails {
          err := Some(StartFailed);
        }
      }
    }
  }

  /** The maps passed by reference through the recursion, and the graph they are about.
      `order` logs the turns, `calls` the starts and restarts, and `running` holds the containers that run. */
  class StartRun {
    const nodes: map<Id, ContainerNode>
    const world: World
    const restart: bool
    ghost const g: Digraph
    ghost const fails: set<Id>
    var ctrsVisited: set<Id>
    var ctrErrors: map<Id, StartError>
    var order: seq<Id>
    var calls: seq<Id>
    var running: set<Id>

    constructor (graph: ContainerGraph, world: World, restart: bool, ghost g: Digraph)
      requires Holds(graph, g)
      ensures Valid() && nodes == graph.nodes && this.world == world && this.restart == restart
      ensures this.g == g && fails == Failing(g, world, restart)
      ensures State() == Progress({}, {}, [])
    {
      this.nodes := graph.nodes;
      this.world := world;
      this.restart := restart;
      this.g := g;
      this.fails := Failing(g, world, restart);
      ctrsVisited, ctrErrors, order, calls := {}, map[], [], [];
      running := set n | n in graph.nodes && world(n).status == Running;
      new;
      forall n ensures RunTold(world, g, running, [], n) {}
    }

    ghost predicate Valid()
      reads this
    {
      && (forall n {:trigger world(n)} :: n in g ==> (n in fails <==> TurnError(world(n), restart).Some?))
      && (exists notDependedOn :: Spells(nodes, notDependedOn, g))
      && ErrorsTold(world, restart, ctrErrors, order)
      && calls == CallsOf(world, restart, order)
      && RunningTold(world, g, running, calls)
    }

    ghost function State(): Progress
      reads this
    {
      Progress(ctrsVisited, ctrErrors.Keys, order)
    }

    method StartNode(node: Id, setError: bool)
      requires Valid() && node in g && Inv(g, fails, State())
      requires !setError ==> Propagated(g, State())
      requires setError ==> exists d :: d in g[node] && d in ctrErrors
      modifies this`ctrsVisited, this`ctrErrors, this`order, this`calls, this`running
      ensures Valid() && Visited(g, fails, old(State()), State(), node, setError)
      decreases g.Keys - ctrsVisited, 1
    {
      ghost var p := State();
      if node in ctrsVisited {
        return;
      }
      if setError {
        FailNode(node);
        return;
      }
      var depsVisited := AllVisited(node);
      if !depsVisited {
        return;
      }
      TakeTurnKeepsInv(g, fails, p, node);
      assert node !in order by { if HadTurn(p, node) { assert false; } }
      var ctrErrored := TryStart(node);
      StartDependents(node, ctrErrored);
      TurnVisited(g, fails, p, State(), node);
    }

    /** A dependency of `node` failed: mark it as failed and recurse. */
    method FailNode(node: Id)
      requires Valid() && node in g && Inv(g, fails, State()) && node !in ctrsVisited
      requires exists d :: d in g[node] && d in ctrErrors
      modifies this`ctrsVisited, this`ctrErrors, this`order, this`calls, this`running
      ensures Valid() && Visited(g, fails, old(State()), State(), node, true)
      decreases g.Keys - ctrsVisited, 0
    {
      ghost var p := State();
      ghost var d :| d in g[node] && d in ctrErrors;
      MarkFailedKeepsInv(g, fails, p, node, d);
      assert node !in order by { if HadTurn(p, node) { assert false; } }
      SetError(node);
      StartDependents(node, true);
      FailedNodeVisited(g, fails, p, State(), node, d);
    }

    /** Mark `node` as visited, and set an error. */
    method SetError(node: Id)
      requires Valid() && node !in order
      modifies this`ctrsVisited, this`ctrErrors
      ensures Valid() && State() == MarkFailed(old(State()), node)
    {
      ctrsVisited := ctrsVisited + {node};
      ctrErrors := ctrErrors[node := DependencyFailed];
      KeysOfUpdate(old(ctrErrors), node, DependencyFailed);
    }

    /** Have all dependencies of `node` been visited? */
    method AllVisited(node: Id) returns (depsVisited: bool)
      requires Valid() && node in g
      ensures depsVisited <==> g[node] <= ctrsVisited
    {
      ghost var notDependedOn :| Spells(nodes, notDependedOn, g);
      assert NodeSpells(nodes, notDependedOn, g, node);
      var deps := nodes[node].dependsOn;
      depsVisited := true;
      for i := 0 to |deps|
        invariant depsVisited <==> forall j :: 0 <= j < i ==> deps[j] in ctrsVisited
      {
        depsVisited := depsVisited && deps[i] in ctrsVisited;
      }
    }

    /** The turn of `node`: mark it as visited, and try to start it. */
    method TryStart(node: Id) returns (ctrErrored: bool)
      requires Valid() && node in g && node !in order && node !in ctrErrors
      modifies this`ctrsVisited, this`ctrErrors, this`order, this`calls, this`running
      ensures Valid() && State() == TakeTurn(fails, old(State()), node)
      ensures ctrErrored <==> node in fails
    {
      ctrsVisited := ctrsVisited + {node};
      var err, called := RunTurn(world(node), restart);
      if err.Some? {
        ctrErrors := ctrErrors[node := err.value];
        KeysOfUpdate(old(ctrErrors), node, err.value);
      }
      order := order + [node];
      if called {
        RunningToldAfter(world, g, running, calls, node);
        calls := calls + [node];
        if err.None? {
          running := running + {node};
        }
      }
      ctrErrored := err.Some?;
      assert order[..|order| - 1] == old(order);
    }

    /** Recurse to everyone who depends on `node`. */
    method StartDependents(node: Id, setError: bool)
      requires Valid() && node in g && node in ctrsVisited && Inv(g, fails, State())
      requires setError <==> node in ctrErrors
      requires !setError ==> Propagated(g, State())
      modifies this`ctrsVisited, this`ctrErrors, this`order, this`calls, this`running
      ensures Valid() && Spreading(g, fails, old(State()), State(), node, {})
      decreases g.Keys - ctrsVisited, 2
    {
      ghost var p := State();
      ghost var notDependedOn :| Spells(nodes, notDependedOn, g);
      assert NodeSpells(nodes, notDependedOn, g, node);
      var successors := nodes[node].dependedOn;
      SpreadNothing(g, fails, p, node, successors);
      for i := 0 to |successors|
        invariant Valid() && Spreading(g, fails, p, State(), node, Elems(successors[i..]))
      {
        var s := successors[i];
        assert s in Reverse(g)[node];
        assert s in g && node in g[s];
        ElemsDropOneMore(successors, i);
        ghost var q := State();
        StartNode(s, setError);
        SpreadOneMore(g, fails, p, q, State(), node, Elems(successors[i..]), s);
      }
    }
  }

  /** What a start came to, in terms of what each turn met. Without restart, a container that had a turn and no
      error runs, and none that ran already is started; with restart, each is restarted unless it is paused or its
      state is unknown. Init containers are passed over. */
  ghost predicate Achieved(g: Digraph, w: World, restart: bool, p: Progress, calls: seq<Id>, running: set<Id>) {
    && (forall n {:trigger n in p.order} :: n in p.order ==>
          (n in p.errors <==> w(n).depCheckFails || w(n).depsStopped || w(n).syncFails || (n in calls && w(n).startFails)))
    && (forall n {:trigger n in calls} :: n in calls ==> n in p.order && !w(n).isInitCtr)
    && (!restart ==>
          && (forall n {:trigger n in running} :: n in p.order && n !in p.errors && !w(n).isInitCtr ==> n in running)
          && (forall n {:trigger n in calls} :: n in calls ==> w(n).status != Running))
    && (restart ==>
          && (forall n {:trigger n in calls} ::
                n in p.order && n !in p.errors && !w(n).isInitCtr && w(n).status != Paused && w(n).status != Unknown ==>
                  n in calls && n in running)
          && (forall n {:trigger n in calls} :: n in calls ==> w(n).status != Paused && w(n).status != Unknown))
  }

  /** Starts every container of the graph, from the nodes without dependencies. The outcome depends on the
      graph and on what each turn meets, and not on the order of the edge lists. */
  method StartAll(graph: ContainerGraph, world: World, restart: bool, ghost g: Digraph)
    returns (p: Progress, errors: map<Id, StartError>, calls: seq<Id>, running: set<Id>)
    requires Holds(graph, g) && NoCycle(g)
    ensures Outcome(g, Failing(g, world, restart), p)
    ensures errors.Keys == p.errors && ErrorsTold(world, restart, errors, p.order)
    ensures calls == CallsOf(world, restart, p.order) && RunningTold(world, g, running, calls)
    ensures Achieved(g, world, restart, p, calls, running)
  {
    p, errors, calls, running := TraverseAll(graph, world, restart, g);
    FinishedHasOutcome(g, Failing(g, world, restart), p);
    StartAchieves(g, world, restart, p, running);
  }

  /** The loop over the nodes without dependencies. */
  method TraverseAll(graph: ContainerGraph, world: World, restart: bool, ghost g: Digraph)
    returns (p: Progress, errors: map<Id, StartError>, calls: seq<Id>, running: set<Id>)
    requires Holds(graph, g) && NoCycle(g)
    ensures Finished(g, Failing(g, world, restart), p)
    ensures errors.Keys == p.errors && ErrorsTold(world, restart, errors, p.order)
    ensures calls == CallsOf(world, restart, p.order) && RunningTold(world, g, running, calls)
  {
    var run := new StartRun(graph, world, restart, g);
    ghost var start := run.State();
    for i := 0 to |graph.noDepNodes|
      invariant run.Valid() && Inv(g, run.fails, run.State()) && Propagated(g, run.State())
      invariant NobodyForgotten(g, start, run.State())
      invariant Elems(graph.noDepNodes[..i]) <= run.ctrsVisited
    {
      ghost var before := run.State();
      ElemsTakeOneMore(graph.noDepNodes, i);
      assert graph.noDepNodes[i] in Sinks(g);
      run.StartNode(graph.noDepNodes[i], false);
      NobodyForgottenSince(g, start, before, run.State());
    }
    p := Progress(run.ctrsVisited, run.ctrErrors.Keys, run.order);
    errors, calls, running := run.ctrErrors, run.calls, run.running;
    ElemsTakeAll(graph.noDepNodes);
    assert Sinks(g) <= p.visited;
  }

  lemma StartAchieves(g: Digraph, w: World, restart: bool, p: Progress, running: set<Id>)
    requires Inv(g, Failing(g, w, restart), p) && RunningTold(w, g, running, CallsOf(w, restart, p.order))
    ensures Achieved(g, w, restart, p, CallsOf(w, restart, p.order), running)
  {
    CallsAreTurns(w, restart, p.order);
    forall n | n in p.order ensures n in g && (n in p.errors <==> TurnError(w(n), restart).Some?) {
      assert HadTurn(p, n) && TurnOk(g, Failing(g, w, restart), p, n);
    }
    forall n | n in p.order ensures RunTold(w, g, running, CallsOf(w, restart, p.order), n) {}
  }

  lemma {:induction false} CallsAreTurns(w: World, restart: bool, order: seq<Id>)
    requires NoDuplicates(order)
    ensures NoDuplicates(CallsOf(w, restart, order))
    ensures forall n :: n in CallsOf(w, restart, order) <==> n in order && Calls(w(n), restart)
    decreases |order|
  {
    if order != [] {
      var k := |order| - 1;
      assert order == order[..k] + [order[k]];
      NotTwice(order, k);
      NoDuplicatesPrefix(order, k);
      CallsAreTurns(w, restart, order[..k]);
      if Calls(w(order[k]), restart) {
        NoDuplicatesAppend(CallsOf(w, restart, order[..k]), order[k]);
      } else {
        assert CallsOf(w, restart, order) == CallsOf(w, restart, order[..k]);
      }
    }
  }

  /** No container is started twice; one is started exactly when nothing it needs is blocked or has failed, its own
      checks pass and its status calls for it. */
  lemma EachStartedOnce(g: Digraph, w: World, restart: bool, p: Progress)
    requires Outcome(g, Failing(g, w, restart), p)
    ensures NoDuplicates(CallsOf(w, restart, p.order))
    ensures forall n :: n in CallsOf(w, restart, p.order) <==>
              && n in g && !Blocked(g, n) && SoundBelow(g, Failing(g, w, restart), n)
              && !w(n).depCheckFails && !w(n).depsStopped && !w(n).syncFails && !w(n).isInitCtr
              && (if restart then w(n).status != Paused && w(n).status != Unknown else w(n).status != Running)
  {
    CallsAreTurns(w, restart, p.order);
  }
}
