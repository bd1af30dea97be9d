/** Finite directed graphs over container identifiers: reachability, cycles and ranks.
    An edge `n -> m` means "n depends on m". */
module Digraphs {

  /** Container, pod and session identifiers. They are only ever compared. */
  type Id(==, !new)

  type Digraph = map<Id, set<Id>>

  ghost predicate Closed(g: Digraph) {
    forall n, m {:trigger m in g[n]} :: n in g && m in g[n] ==> m in g
  }

  /** No edge leaves `s`. */
  ghost predicate ClosedUnder(g: Digraph, s: set<Id>) {
    forall n, m {:trigger m in g[n]} :: n in s && n in g && m in g[n] ==> m in s
  }

  /** Reflexive and transitive reachability: `v` belongs to every set that holds `u` and that no edge
      leaves. `ReachesByWalk` shows that this is the existence of a walk. */
  ghost predicate Reaches(g: Digraph, u: Id, v: Id) {
    forall s: set<Id> {:trigger ClosedUnder(g, s)} :: u in s && ClosedUnder(g, s) ==> v in s
  }

  /** Reachability by at least one edge. */
  ghost predicate ReachesPlus(g: Digraph, u: Id, v: Id) {
    u in g && exists m :: m in g[u] && Reaches(g, m, v)
  }

  /** No two distinct nodes reach each other. A self-edge is not a cycle in this sense. */
  ghost predicate NoCycle(g: Digraph) {
    forall u, v :: Reaches(g, u, v) && Reaches(g, v, u) ==> u == v
  }

  ghost predicate SelfEdge(g: Digraph, n: Id) {
    n in g && n in g[n]
  }

  /** The same edges, turned around. */
  ghost function Reverse(g: Digraph): (r: Digraph)
    ensures r.Keys == g.Keys
    ensures forall n, m {:trigger m in r[n]} {:trigger n in g[m]} :: n in g && m in g ==> (m in r[n] <==> n in g[m])
  {
    map n | n in g :: set m | m in g && n in g[m]
  }

  /** `p` lists, in order, the nodes visited after `u` on a walk from `u` to `v`. */
  ghost predicate Walk(g: Digraph, u: Id, p: seq<Id>, v: Id)
    decreases |p|
  {
    if p == [] then u == v
    else u in g && p[0] in g[u] && Walk(g, p[0], p[1..], v)
  }

  lemma ReachesTransitive(g: Digraph, u: Id, v: Id, w: Id)
    requires Reaches(g, u, v) && Reaches(g, v, w)
    ensures Reaches(g, u, w)
  {
  }

  lemma ReachesEdge(g: Digraph, u: Id, v: Id)
    requires u in g && v in g[u]
    ensures Reaches(g, u, v)
  {
  }

  lemma {:induction false} WalkStaysIn(g: Digraph, s: set<Id>, u: Id, p: seq<Id>, v: Id)
    requires ClosedUnder(g, s) && u in s && Walk(g, u, p, v)
    ensures v in s
    decreases |p|
  {
    if p != [] { WalkStaysIn(g, s, p[0], p[1..], v); }
  }

  lemma {:induction false} WalkAppend(g: Digraph, u: Id, p: seq<Id>, v: Id, w: Id)
    requires Walk(g, u, p, v) && v in g && w in g[v]
    ensures Walk(g, u, p + [w], w)
    decreases |p|
  {
    if p == [] {
      assert Walk(g, w, [w][1..], w);
    } else {
      WalkAppend(g, p[0], p[1..], v, w);
      assert (p + [w])[1..] == p[1..] + [w];
    }
  }

  ghost predicate HasWalk(g: Digraph, u: Id, v: Id) {
    exists p :: Walk(g, u, p, v)
  }

  lemma HasWalkEdge(g: Digraph, u: Id, v: Id, w: Id)
    requires HasWalk(g, u, v) && v in g && w in g[v]
    ensures HasWalk(g, u, w)
  {
    var p :| Walk(g, u, p, v);
    WalkAppend(g, u, p, v, w);
  }

  function Successors(g: Digraph): set<Id> {
    set n, m | n in g && m in g[n] :: m
  }

  /** Reachability is the existence of a walk. */
  lemma ReachesByWalk(g: Digraph, u: Id, v: Id)
    ensures Reaches(g, u, v) <==> HasWalk(g, u, v)
  {
    if HasWalk(g, u, v) {
      var p :| Walk(g, u, p, v);
      forall s: set<Id> | u in s && ClosedUnder(g, s) ensures v in s { WalkStaysIn(g, s, u, p, v); }
    }
    if Reaches(g, u, v) {
      var walked := set x | x in {u} + Successors(g) && HasWalk(g, u, x);
      assert HasWalk(g, u, u) by { assert Walk(g, u, [], u); }
      forall n, m | n in walked && n in g && m in g[n] ensures m in walked { HasWalkEdge(g, u, n, m); }
      ReachesStaysIn(g, walked, u, v);
    }
  }

  /** Whatever is reached is reached by staying put or by a first edge. */
  lemma ReachesFirstEdge(g: Digraph, u: Id, v: Id) returns (m: Id)
    requires Reaches(g, u, v) && u != v
    ensures u in g && m in g[u] && Reaches(g, m, v)
  {
    var s := {u} + set x | x in Successors(g) && ReachesPlus(g, u, x);
    forall n, x | n in s && n in g && x in g[n] ensures x in s {
      if n != u {
        var k :| k in g[u] && Reaches(g, k, n);
        ReachesEdge(g, n, x);
        ReachesTransitive(g, k, n, x);
      } else {
        assert Reaches(g, x, x);
      }
    }
    ReachesStaysIn(g, s, u, v);
    m :| m in g[u] && Reaches(g, m, v);
  }

  lemma ReachesStaysIn(g: Digraph, s: set<Id>, u: Id, v: Id)
    requires (forall n, m {:trigger m in g[n]} :: n in s && n in g && m in g[n] ==> m in s) && u in s && Reaches(g, u, v)
    ensures v in s
  {
    assert ClosedUnder(g, s);
  }

  /** Reversing every edge turns every walk around. */
  lemma ReachesReverse(g: Digraph, u: Id, v: Id)
    requires Closed(g) && u in g && Reaches(g, u, v)
    ensures Reaches(Reverse(g), v, u)
  {
    var r := Reverse(g);
    forall s: set<Id> | v in s && ClosedUnder(r, s) ensures u in s {
      var rest := g.Keys - s;
      forall n | n in rest && n in g ensures g[n] <= rest {
        forall m | m in g[n] ensures m in rest { assert n in r[m]; }
      }
      assert ClosedUnder(g, rest);
    }
  }

  lemma ReverseReverse(g: Digraph)
    requires Closed(g)
    ensures Closed(Reverse(g)) && Reverse(Reverse(g)) == g
  {
    forall n | n in g ensures Reverse(Reverse(g))[n] == g[n] {
      assert forall m :: m in g[n] <==> m in Reverse(Reverse(g))[n];
    }
  }

  /** Turning every edge around makes no cycle. */
  lemma ReverseNoCycle(g: Digraph)
    requires Closed(g) && NoCycle(g)
    ensures NoCycle(Reverse(g))
  {
    var r := Reverse(g);
    ReverseReverse(g);
    forall u, v | Reaches(r, u, v) && Reaches(r, v, u) ensures u == v {
      if u != v {
        var m := ReachesFirstEdge(r, u, v);
        var k := ReachesFirstEdge(r, v, u);
        ReachesReverse(r, u, v);
        ReachesReverse(r, v, u);
      }
    }
  }

  /** In a graph without cycles, every non-empty set of nodes has one whose edges into the set, if any,
      are self-edges. */
  lemma {:induction false} HasMinimal(g: Digraph, s: set<Id>) returns (n: Id)
    requires NoCycle(g) && s != {} && s <= g.Keys
    ensures n in s && forall m :: m in g[n] && m in s ==> m == n
    decreases |s|
  {
    var u :| u in s;
    // the rest of s that u still has to wait for
    var below := set v | v in s && v != u && Reaches(g, u, v);
    assert below < s;
    ProperSubsetIsSmaller(below, s);
    if below == {} {
      n := u;
      forall m | m in g[n] && m in s ensures m == n {
        ReachesEdge(g, u, m);
        assert m != u ==> m in below;
      }
    } else {
      n := HasMinimal(g, below);
      forall m | m in g[n] && m in s ensures m == n {
        ReachesEdge(g, n, m);
        ReachesTransitive(g, u, n, m);
        if m == u {
          assert false;
        }
      }
    }
  }

  lemma ProperSubsetIsSmaller<T>(a: set<T>, b: set<T>)
    requires a < b
    ensures |a| < |b|
  {
    assert !(b <= a);
    var x :| x in b && x !in a;
    SubsetIsNoLarger(a, b - {x});
  }

  lemma {:induction false} SubsetIsNoLarger<T>(a: set<T>, b: set<T>)
    requires a <= b
    ensures |a| <= |b|
    decreases |a|
  {
    if a != {} {
      var x :| x in a;
      SubsetIsNoLarger(a - {x}, b - {x});
    }
  }

  /** A rank that every edge other than a self-edge strictly decreases. */
  ghost predicate Ranked(g: Digraph, rank: map<Id, nat>) {
    && rank.Keys == g.Keys
    && forall n, m {:trigger m in g[n]} :: n in g && m in g[n] && m != n ==> m in g && rank[m] < rank[n]
  }

  lemma ReachesLowersRank(g: Digraph, rank: map<Id, nat>, u: Id, v: Id)
    requires Ranked(g, rank) && u in g && Reaches(g, u, v) && u != v
    ensures v in g && rank[v] < rank[u]
  {
    var lower := set n | n in g && (n == u || rank[n] < rank[u]);
    assert ClosedUnder(g, lower);
  }

  lemma RankedHasNoCycle(g: Digraph, rank: map<Id, nat>)
    requires Ranked(g, rank)
    ensures NoCycle(g)
  {
    forall u, v | Reaches(g, u, v) && Reaches(g, v, u) ensures u == v {
      if u != v {
        var m := ReachesFirstEdge(g, u, v);
        ReachesLowersRank(g, rank, u, v);
        ReachesLowersRank(g, rank, v, u);
        assert false;
      }
    }
  }
}
