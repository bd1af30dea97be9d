/** The traversal scheme that starting and removing share. A node waits for the nodes its edges lead to:
    its dependencies when starting, its dependents when removing. A node whose wait is over has its turn;
    an error spreads at once to everyone who waits for the failed node. */
module Traversals {
  import opened Digraphs
  import opened Containers
  import opened ContainerGraphs

  /** Who was visited, who has an error, and who had a turn, in order. */
  datatype Progress = Progress(visited: set<Id>, errors: set<Id>, order: seq<Id>)

  predicate HadTurn(p: Progress, n: Id) {
    n in p.order
  }

  /** Every node's turn comes after the turns of all it waits for. */
  ghost predicate OrderOk(g: Digraph, order: seq<Id>) {
    forall i, d {:trigger d in g[order[i]]} ::
      0 <= i < |order| && order[i] in g && d in g[order[i]] ==> d in order[..i]
  }

  /** `n` owes its error to a node that had its turn and failed. */
  ghost predicate HasRootCause(g: Digraph, fails: set<Id>, p: Progress, n: Id) {
    exists m :: Reaches(g, n, m) && HadTurn(p, m) && m in fails
  }

  ghost predicate TurnOk(g: Digraph, fails: set<Id>, p: Progress, n: Id) {
    && n in p.visited
    && (n in p.errors <==> n in fails)
    && (forall d {:trigger d in g[n]} :: n in g && d in g[n] ==> HadTurn(p, d) && d !in p.errors)
  }

  ghost predicate ErrorOk(g: Digraph, fails: set<Id>, p: Progress, n: Id) {
    && n in p.visited && n in p.errors
    && (HadTurn(p, n) || HasRootCause(g, fails, p, n))
  }

  /** What holds between any two steps of the traversal. */
  ghost predicate Inv(g: Digraph, fails: set<Id>, p: Progress) {
    && p.visited <= g.Keys
    && (forall n {:trigger n in p.visited} :: n in p.visited ==> HadTurn(p, n) || n in p.errors)
    && (forall n {:trigger HadTurn(p, n)} :: HadTurn(p, n) ==> TurnOk(g, fails, p, n))
    && (forall n {:trigger n in p.errors} :: n in p.errors ==> ErrorOk(g, fails, p, n))
    && NoDuplicates(p.order) && OrderOk(g, p.order)
  }

  /** Everyone who waits for a node with an error has an error. */
  ghost predicate Propagated(g: Digraph, p: Progress) {
    forall s, d {:trigger d in g[s]} :: s in g && d in g[s] && d in p.errors ==> s in p.errors
  }

  /** The errors added since `p` have reached everyone who waits for them. */
  ghost predicate PropagatedSince(g: Digraph, p: Progress, q: Progress) {
    forall s, d {:trigger d in g[s]} :: s in g && d in g[s] && d in q.errors && d !in p.errors ==> s in q.errors
  }

  /** A node left unvisited though its wait is over was already so before: nobody is forgotten. */
  ghost predicate NobodyForgotten(g: Digraph, p: Progress, q: Progress) {
    forall n {:trigger n in q.visited} :: n in g && n !in q.visited && g[n] <= q.visited ==> g[n] <= p.visited
  }

  lemma NobodyForgottenSince(g: Digraph, p: Progress, q: Progress, t: Progress)
    requires NobodyForgotten(g, p, q) && NobodyForgotten(g, q, t) && q.visited <= t.visited
    ensures NobodyForgotten(g, p, t)
  {
    forall n | n in g && n !in t.visited && g[n] <= t.visited ensures g[n] <= p.visited { assert n !in q.visited; }
  }

  /** `q` continues `p`: what was decided stays decided. */
  ghost predicate Continues(p: Progress, q: Progress) {
    && p.visited <= q.visited
    && (forall n {:trigger n in p.errors} {:trigger n in q.errors} ::
          n in p.visited ==> (n in q.errors <==> n in p.errors))
    && p.order <= q.order
  }

  /** The marks left on a node that waits for a failed one. */
  function MarkFailed(p: Progress, n: Id): Progress {
    p.(visited := p.visited + {n}, errors := p.errors + {n})
  }

  lemma MarkFailedKeepsInv(g: Digraph, fails: set<Id>, p: Progress, n: Id, d: Id)
    requires Inv(g, fails, p) && n in g && n !in p.visited && d in g[n] && d in p.errors
    ensures Inv(g, fails, MarkFailed(p, n)) && Continues(p, MarkFailed(p, n))
  {
    var q := MarkFailed(p, n);
    assert forall m :: HadTurn(q, m) <==> HadTurn(p, m);
    assert HasRootCause(g, fails, p, n) by {
      ReachesEdge(g, n, d);
      assert ErrorOk(g, fails, p, d);
      if HadTurn(p, d) {
        assert TurnOk(g, fails, p, d);
      } else {
        var m :| Reaches(g, d, m) && HadTurn(p, m) && m in fails;
        ReachesTransitive(g, n, d, m);
      }
    }
    forall m | HadTurn(q, m) ensures TurnOk(g, fails, q, m) {
      assert HadTurn(p, m) && TurnOk(g, fails, p, m);
    }
    forall m | m in q.errors ensures ErrorOk(g, fails, q, m) {
      if m != n { assert ErrorOk(g, fails, p, m); }
      if !HadTurn(q, m) {
        var k :| Reaches(g, m, k) && HadTurn(p, k) && k in fails;
        assert HadTurn(q, k);
      }
    }
  }

  /** The marks left by the turn of `n`. */
  function TakeTurn(fails: set<Id>, p: Progress, n: Id): Progress {
    Progress(p.visited + {n}, if n in fails then p.errors + {n} else p.errors, p.order + [n])
  }

  lemma HadTurnAfter(fails: set<Id>, p: Progress, n: Id, m: Id)
    ensures HadTurn(TakeTurn(fails, p, n), m) <==> HadTurn(p, m) || m == n
  {
  }

  lemma TakeTurnKeepsOrder(g: Digraph, fails: set<Id>, p: Progress, n: Id)
    requires NoDuplicates(p.order) && OrderOk(g, p.order)
    requires n in g && !HadTurn(p, n) && forall d :: d in g[n] ==> HadTurn(p, d)
    ensures var q := TakeTurn(fails, p, n);
            NoDuplicates(q.order) && OrderOk(g, q.order)
  {
    var q := TakeTurn(fails, p, n);
    assert q.order[..|p.order|] == p.order;
    NoDuplicatesAppend(p.order, n);
    forall i, d | 0 <= i < |q.order| && q.order[i] in g && d in g[q.order[i]] ensures d in q.order[..i] {
      if i < |p.order| {
        assert d in g[p.order[i]];
        assert q.order[..i] == p.order[..i];
      } else {
        assert HadTurn(p, d);
      }
    }
  }

  /** With errors passed on, a node that was not reached by one waits for sound nodes only. */
  lemma AwaitedAreSound(g: Digraph, fails: set<Id>, p: Progress, n: Id, d: Id)
    requires Inv(g, fails, p) && Propagated(g, p) && n in g && n !in p.visited && d in g[n] && d in p.visited
    ensures HadTurn(p, d) && d !in p.errors
  {
    if d in p.errors { assert false; }
  }

  lemma TakeTurnKeepsInv(g: Digraph, fails: set<Id>, p: Progress, n: Id)
    requires Inv(g, fails, p) && Propagated(g, p) && n in g && n !in p.visited && g[n] <= p.visited
    ensures var q := TakeTurn(fails, p, n);
            Inv(g, fails, q) && Continues(p, q) && (n !in fails ==> Propagated(g, q))
  {
    var q := TakeTurn(fails, p, n);
    assert !HadTurn(p, n) by { if HadTurn(p, n) { assert false; } }
    forall d | d in g[n] ensures HadTurn(p, d) && d !in p.errors { AwaitedAreSound(g, fails, p, n, d); }
    TakeTurnKeepsOrder(g, fails, p, n);
    forall m | HadTurn(q, m) ensures TurnOk(g, fails, q, m) {
      HadTurnAfter(fails, p, n, m);
      if m != n { assert TurnOk(g, fails, p, m); }
      forall d | m in g && d in g[m] ensures HadTurn(q, d) && d !in q.errors {
        HadTurnAfter(fails, p, n, d);
        assert HadTurn(p, d) && TurnOk(g, fails, p, d);
      }
    }
    forall m | m in q.errors ensures ErrorOk(g, fails, q, m) {
      HadTurnAfter(fails, p, n, m);
      if m != n {
        assert ErrorOk(g, fails, p, m);
        if !HadTurn(p, m) {
          var k :| Reaches(g, m, k) && HadTurn(p, k) && k in fails;
          HadTurnAfter(fails, p, n, k);
        }
      }
    }
    forall m | m in q.visited ensures HadTurn(q, m) || m in q.errors { HadTurnAfter(fails, p, n, m); }
  }

  /** The same, with those in `rest` still to be called on account of `n`. */
  ghost predicate NobodyForgottenBut(g: Digraph, p: Progress, q: Progress, n: Id, rest: set<Id>) {
    forall m {:trigger m in q.visited} ::
      m in g && m !in q.visited && g[m] <= q.visited ==> g[m] <= p.visited && (n in g[m] ==> m in rest)
  }

  /** The state of the loop over those who wait for `n` that started in `p` and has `rest` left to visit. */
  ghost predicate Spreading(g: Digraph, fails: set<Id>, p: Progress, q: Progress, n: Id, rest: set<Id>) {
    && Inv(g, fails, q) && Continues(p, q) && n in p.visited
    && NobodyForgottenBut(g, p, q, n, rest)
    && (n !in p.errors ==> Propagated(g, q))
    && (n in p.errors ==> q.order == p.order && PropagatedTo(g, q, n, rest) && PropagatedSince(g, p, q))
  }

  /** The error of `n` has reached everyone who waits for it but those in `rest`. */
  ghost predicate PropagatedTo(g: Digraph, q: Progress, n: Id, rest: set<Id>) {
    forall s {:trigger n in g[s]} :: s in g && n in g[s] && s !in rest ==> s in q.errors
  }

  /** What a call on `n` promises. */
  ghost predicate Visited(g: Digraph, fails: set<Id>, p: Progress, q: Progress, n: Id, setError: bool) {
    && Inv(g, fails, q) && Continues(p, q) && NobodyForgotten(g, p, q)
    && n in g && (setError || g[n] <= p.visited ==> n in q.visited)
    && (!setError ==> Propagated(g, q))
    && (setError ==> q.order == p.order && n in q.errors && PropagatedSince(g, p, q))
  }

  lemma SpreadNothing(g: Digraph, fails: set<Id>, p: Progress, n: Id, successors: seq<Id>)
    requires Inv(g, fails, p) && n in g && n in p.visited && Lists(successors, Reverse(g)[n])
    requires n !in p.errors ==> Propagated(g, p)
    ensures Spreading(g, fails, p, p, n, Elems(successors[0..]))
  {
    assert successors[0..] == successors;
    forall s | s in g && n in g[s] ensures s in Elems(successors) {
      assert s in Reverse(g)[n];
    }
  }

  lemma SpreadOneMore(g: Digraph, fails: set<Id>, p: Progress, q: Progress, t: Progress, n: Id, rest: set<Id>, s: Id)
    requires n in g && s in g && n in g[s] && s in rest
    requires Spreading(g, fails, p, q, n, rest) && Visited(g, fails, q, t, s, n in p.errors)
    ensures Spreading(g, fails, p, t, n, rest - {s})
  {
  }

  /** Once its loop is done, a node marked as failed has kept the promise of its call. */
  lemma FailedNodeVisited(g: Digraph, fails: set<Id>, p: Progress, q: Progress, n: Id, d: Id)
    requires Inv(g, fails, p) && n in g && n !in p.visited && d in g[n] && d in p.errors
    requires Spreading(g, fails, MarkFailed(p, n), q, n, {})
    ensures Visited(g, fails, p, q, n, true)
  {
    MarkFailedKeepsInv(g, fails, p, n, d);
  }

  lemma TurnVisited(g: Digraph, fails: set<Id>, p: Progress, q: Progress, n: Id)
    requires Inv(g, fails, p) && Propagated(g, p) && n in g && n !in p.visited && g[n] <= p.visited
    requires Spreading(g, fails, TakeTurn(fails, p, n), q, n, {})
    ensures Visited(g, fails, p, q, n, false)
  {
    TakeTurnKeepsInv(g, fails, p, n);
  }

  /** The node, or one it waits for directly or not, waits for itself. */
  ghost predicate Blocked(g: Digraph, n: Id) {
    exists m :: Reaches(g, n, m) && SelfEdge(g, m)
  }

  /** The node, or one it waits for directly or not, can have its turn and fails in it. */
  ghost predicate Doomed(g: Digraph, fails: set<Id>, n: Id) {
    exists m :: Reaches(g, n, m) && !Blocked(g, m) && m in fails && m in g
  }

  /** The outcome of a whole traversal, told from the graph and the failures alone. */
  ghost predicate Outcome(g: Digraph, fails: set<Id>, p: Progress) {
    && (forall n {:trigger n in p.visited} :: n in p.visited <==> n in g && (!Blocked(g, n) || Doomed(g, fails, n)))
    && (forall n {:trigger n in p.errors} :: n in p.errors <==> n in g && Doomed(g, fails, n))
    && (forall n {:trigger n in p.order} :: n in p.order <==> n in g && !Blocked(g, n) && SoundBelow(g, fails, n))
    && NoDuplicates(p.order) && OrderOk(g, p.order)
  }

  ghost predicate SoundBelow(g: Digraph, fails: set<Id>, n: Id) {
    n in g && forall d {:trigger d in g[n]} :: d in g[n] ==> !Doomed(g, fails, d)
  }

  /** The end state of the loop over the nodes that wait for nobody. */
  ghost predicate Finished(g: Digraph, fails: set<Id>, p: Progress) {
    && Closed(g) && NoCycle(g)
    && Inv(g, fails, p) && Propagated(g, p)
    && NobodyForgotten(g, Progress({}, {}, []), p)
    && Sinks(g) <= p.visited
  }

  lemma TurnsAreUnblocked(g: Digraph, fails: set<Id>, p: Progress, n: Id)
    requires Inv(g, fails, p) && n in p.order
    ensures !Blocked(g, n)
  {
    if m :| Reaches(g, n, m) && SelfEdge(g, m) {
      var turns := Elems(p.order);
      forall x, d | x in turns && x in g && d in g[x] ensures d in turns {
        assert HadTurn(p, x) && TurnOk(g, fails, p, x);
        assert HadTurn(p, d);
      }
      ReachesStaysIn(g, turns, n, m);
      OrderHasNoSelfEdge(g, p.order, m);
    }
  }

  lemma OrderHasNoSelfEdge(g: Digraph, order: seq<Id>, m: Id)
    requires NoDuplicates(order) && OrderOk(g, order) && m in order
    ensures !SelfEdge(g, m)
  {
    var i :| 0 <= i < |order| && order[i] == m;
    NotTwice(order, i);
    if m in g && m in g[order[i]] { assert false; }
  }

  lemma ErrorsSpreadUp(g: Digraph, p: Progress, n: Id, m: Id)
    requires Closed(g) && Propagated(g, p) && n in g && Reaches(g, n, m) && m in p.errors
    ensures n in p.errors
  {
    if n !in p.errors {
      ReachesStaysIn(g, g.Keys - p.errors, n, m);
    }
  }

  lemma BlockedFromBelow(g: Digraph, n: Id, d: Id)
    requires n in g && d in g[n] && Blocked(g, d)
    ensures Blocked(g, n)
  {
    var m :| Reaches(g, d, m) && SelfEdge(g, m);
    ReachesEdge(g, n, d);
    ReachesTransitive(g, n, d, m);
  }

  /** A node whose wait is over was visited. */
  lemma ReadyIsVisited(g: Digraph, fails: set<Id>, p: Progress, u: Id)
    requires Finished(g, fails, p) && u in g && g[u] <= p.visited
    ensures u in p.visited
  {
    assert g[u] == {} ==> u in Sinks(g);
  }

  /** The traversal reaches every node that does not wait for itself. */
  lemma UnblockedAreVisited(g: Digraph, fails: set<Id>, p: Progress)
    requires Finished(g, fails, p)
    ensures forall n :: n in g && !Blocked(g, n) ==> n in p.visited
  {
    var missed := set n | n in g && n !in p.visited && !Blocked(g, n);
    if missed != {} {
      var u := HasMinimal(g, missed);
      forall d | d in g[u] ensures d in p.visited {
        assert d != u by { assert Reaches(g, u, u); }
        assert !Blocked(g, d) by { if Blocked(g, d) { BlockedFromBelow(g, u, d); } }
        assert d !in missed;
      }
      ReadyIsVisited(g, fails, p, u);
      assert false;
    }
    assert forall n :: n in g && !Blocked(g, n) && n !in p.visited ==> n in missed;
  }

  lemma ErrorsAreDoomed(g: Digraph, fails: set<Id>, p: Progress, n: Id)
    requires Finished(g, fails, p)
    ensures n in p.errors <==> n in g && Doomed(g, fails, n)
  {
    UnblockedAreVisited(g, fails, p);
    if n in p.errors {
      assert ErrorOk(g, fails, p, n);
      var m := n;
      if HadTurn(p, n) {
        assert TurnOk(g, fails, p, n) && Reaches(g, n, n);
      } else {
        m :| Reaches(g, n, m) && HadTurn(p, m) && m in fails;
      }
      TurnsAreUnblocked(g, fails, p, m);
      assert TurnOk(g, fails, p, m);
    }
    if n in g && Doomed(g, fails, n) {
      var m :| Reaches(g, n, m) && !Blocked(g, m) && m in fails && m in g;
      assert m in p.visited;
      assert HadTurn(p, m) ==> TurnOk(g, fails, p, m);
      ErrorsSpreadUp(g, p, n, m);
    }
  }

  lemma TurnsAreSound(g: Digraph, fails: set<Id>, p: Progress, n: Id)
    requires Finished(g, fails, p)
    ensures n in p.order <==> n in g && !Blocked(g, n) && SoundBelow(g, fails, n)
  {
    UnblockedAreVisited(g, fails, p);
    if n in p.order {
      assert HadTurn(p, n) && TurnOk(g, fails, p, n);
      TurnsAreUnblocked(g, fails, p, n);
      forall d | d in g[n] ensures !Doomed(g, fails, d) { ErrorsAreDoomed(g, fails, p, d); }
    }
    if n in g && !Blocked(g, n) && SoundBelow(g, fails, n) && !HadTurn(p, n) {
      assert n in p.visited && n in p.errors && ErrorOk(g, fails, p, n);
      var m :| Reaches(g, n, m) && HadTurn(p, m) && m in fails;
      assert TurnOk(g, fails, p, m);
      var k := ReachesFirstEdge(g, n, m);
      ErrorsSpreadUp(g, p, k, m);
      ErrorsAreDoomed(g, fails, p, k);
      assert false;
    }
  }

  lemma FinishedHasOutcome(g: Digraph, fails: set<Id>, p: Progress)
    requires Finished(g, fails, p)
    ensures Outcome(g, fails, p)
  {
    UnblockedAreVisited(g, fails, p);
    forall n ensures n in p.errors <==> n in g && Doomed(g, fails, n) { ErrorsAreDoomed(g, fails, p, n); }
    forall n ensures n in p.order <==> n in g && !Blocked(g, n) && SoundBelow(g, fails, n) {
      TurnsAreSound(g, fails, p, n);
    }
    forall n | n in p.visited ensures !Blocked(g, n) || Doomed(g, fails, n) {
      assert HadTurn(p, n) || n in p.errors;
    }
  }

  /** A turn comes after the turns of everyone waited for, directly or not, none of whom failed. */
  lemma TurnAfterAwaited(g: Digraph, fails: set<Id>, p: Progress, i: nat, m: Id)
    requires Closed(g) && Outcome(g, fails, p)
    requires i < |p.order| && Reaches(g, p.order[i], m) && m != p.order[i]
    ensures m in p.order[..i] && m !in p.errors
  {
    var n := p.order[i];
    var earlier := Elems(p.order[..i]);
    forall x, d | x in earlier && x in g && d in g[x] ensures d in earlier {
      var j :| 0 <= j < i && p.order[j] == x;
      assert d in g[p.order[j]];
    }
    assert n in p.order;
    var k := ReachesFirstEdge(g, n, m);
    assert k in g[p.order[i]];
    ReachesStaysIn(g, earlier, k, m);
    if Doomed(g, fails, m) { DoomedFromBelow(g, fails, k, m); }
  }

  lemma DoomedFromBelow(g: Digraph, fails: set<Id>, n: Id, m: Id)
    requires Reaches(g, n, m) && Doomed(g, fails, m)
    ensures Doomed(g, fails, n)
  {
    var r :| Reaches(g, m, r) && !Blocked(g, r) && r in fails && r in g;
    ReachesTransitive(g, n, m, r);
  }

  /** Whatever waits for a node with an error ends with an error and has no turn. */
  lemma FailureClosesUpwards(g: Digraph, fails: set<Id>, p: Progress, n: Id, m: Id)
    requires Closed(g) && Outcome(g, fails, p) && m in p.errors && n in g && Reaches(g, n, m) && n != m
    ensures n in p.errors && n !in p.order
  {
    DoomedFromBelow(g, fails, n, m);
    var k := ReachesFirstEdge(g, n, m);
    DoomedFromBelow(g, fails, k, m);
  }

  /** If nobody waits for itself everyone is visited, whatever fails. */
  lemma EveryoneVisited(g: Digraph, fails: set<Id>, p: Progress)
    requires Closed(g) && Outcome(g, fails, p) && forall n :: n in g ==> !SelfEdge(g, n)
    ensures p.visited == g.Keys
  {
    forall n | n in g ensures n in p.visited {
      assert !Blocked(g, n);
    }
  }
}
