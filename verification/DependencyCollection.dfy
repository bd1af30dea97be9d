/** Collecting the dependencies that have to be started before a container can be. */
module DependencyCollection {
  import opened Digraphs
  import opened Containers

  /** A snapshot of the stored containers and of their statuses; None is a status that cannot be had. */
  datatype Snapshot = Snapshot(store: map<Id, ContainerConfig>, status: map<Id, Option<ContainerStatus>>)

  /** Neither the configuration nor the status of `d` fails to load. */
  ghost predicate Loads(s: Snapshot, d: Id) {
    d in s.store && d in s.status && s.status[d].Some?
  }

  /** `d` loads and is not running. */
  ghost predicate IsIdle(s: Snapshot, d: Id) {
    Loads(s, d) && s.status[d].value != Running
  }

  ghost function IdleDeps(s: Snapshot, c: ContainerConfig): set<Id> {
    set d | d in DependencySet(c) && IsIdle(s, d)
  }

  /** The dependencies among the stored containers that are not running. */
  ghost function IdleGraph(s: Snapshot): (g: Digraph)
    ensures g.Keys == s.store.Keys
  {
    map n | n in s.store :: IdleDeps(s, s.store[n])
  }

  /** `d` is reached from `c` along one dependency or more, and no container after `c` is running. */
  ghost predicate ReachedFrom(s: Snapshot, c: ContainerConfig, d: Id) {
    exists m {:trigger m in IdleDeps(s, c)} :: m in IdleDeps(s, c) && Reaches(IdleGraph(s), m, d)
  }

  ghost predicate Faulty(s: Snapshot, c: ContainerConfig) {
    exists d {:trigger Loads(s, d)} :: d in DependencySet(c) && !Loads(s, d)
  }

  /** `c` or a container reached from it has a dependency that does not load. */
  ghost predicate FaultReached(s: Snapshot, c: ContainerConfig) {
    Faulty(s, c) || exists d {:trigger ReachedFrom(s, c, d)} :: ReachedFrom(s, c, d) && d in s.store && Faulty(s, s.store[d])
  }

  /** Between `before` and `after`, only containers reached from `c` were collected, with all that they need. */
  ghost predicate Collects(s: Snapshot, c: ContainerConfig, before: set<Id>, after: set<Id>) {
    && before <= after <= s.store.Keys
    && forall d {:trigger CollectedFor(s, c, d, after)} :: d in after - before ==> CollectedFor(s, c, d, after)
  }

  ghost predicate CollectedFor(s: Snapshot, c: ContainerConfig, d: Id, after: set<Id>) {
    d in s.store && ReachedFrom(s, c, d) && IdleDeps(s, s.store[d]) <= after && !Faulty(s, s.store[d])
  }

  lemma ReachedThrough(s: Snapshot, c: ContainerConfig, m: Id, d: Id)
    requires m in IdleDeps(s, c) && m in s.store && (d == m || ReachedFrom(s, s.store[m], d))
    ensures ReachedFrom(s, c, d)
  {
    var g := IdleGraph(s);
    if d == m {
      assert Reaches(g, m, m);
    } else {
      var k :| k in IdleDeps(s, s.store[m]) && Reaches(g, k, d);
      assert k in g[m];
      ReachesEdge(g, m, k);
      ReachesTransitive(g, m, k, d);
    }
  }

  /** Collecting one dependency and all that it needs. */
  lemma CollectsOneMore(s: Snapshot, c: ContainerConfig, m: Id, before: set<Id>, mid: set<Id>, after: set<Id>)
    requires Collects(s, c, before, mid) && m in IdleDeps(s, c) && m in s.store && m !in mid
    requires Collects(s, s.store[m], mid + {m}, after) && IdleDeps(s, s.store[m]) <= after && !Faulty(s, s.store[m])
    ensures Collects(s, c, before, after)
  {
    forall d | d in after - before ensures CollectedFor(s, c, d, after) {
      if d in mid {
        assert CollectedFor(s, c, d, mid);
      } else {
        if d != m { assert CollectedFor(s, s.store[m], d, after); }
        ReachedThrough(s, c, m, d);
      }
    }
  }

  lemma FaultThrough(s: Snapshot, c: ContainerConfig, m: Id)
    requires m in IdleDeps(s, c) && m in s.store && FaultReached(s, s.store[m])
    ensures FaultReached(s, c)
  {
    if Faulty(s, s.store[m]) {
      ReachedThrough(s, c, m, m);
    } else {
      var d :| ReachedFrom(s, s.store[m], d) && d in s.store && Faulty(s, s.store[d]);
      ReachedThrough(s, c, m, d);
    }
  }

  /** The dependencies up to the `i`-th are dealt with. */
  ghost predicate DealtWith(s: Snapshot, deps: seq<Id>, i: nat, visited: set<Id>) {
    i <= |deps| && forall j {:trigger deps[j]} ::
      0 <= j < i ==> Loads(s, deps[j]) && (IsIdle(s, deps[j]) ==> deps[j] in visited)
  }

  class Collector {
    const s: Snapshot
    var visited: map<Id, ContainerConfig>

    constructor (s: Snapshot)
      ensures this.s == s && visited == map[]
    {
      this.s, visited := s, map[];
    }

    ghost predicate Valid()
      reads this`visited
    {
      forall d {:trigger visited[d]} :: d in visited ==> IsIdle(s, d) && visited[d] == s.store[d]
    }

    /** Fills `visited` with the dependencies of `c`, those of its dependencies, and so on. */
    method GetAllDependencies(c: ContainerConfig) returns (ok: bool)
      requires Valid()
      modifies this`visited
      ensures Valid()
      ensures ok ==> Collects(s, c, old(visited.Keys), visited.Keys) && IdleDeps(s, c) <= visited.Keys && !Faulty(s, c)
      ensures !ok ==> FaultReached(s, c)
      ensures old(visited.Keys) <= visited.Keys
      decreases s.store.Keys - visited.Keys
    {
      var depIDs := Dependencies(c);
      ghost var before := visited.Keys;
      for i := 0 to |depIDs|
        invariant Valid() && Collects(s, c, before, visited.Keys) && DealtWith(s, depIDs, i, visited.Keys)
      {
        var depID := depIDs[i];
        assert depID in DependencySet(c);
        if depID !in visited {
          if depID !in s.store || depID !in s.status || s.status[depID].None? {
            assert !Loads(s, depID);
            return false;
          }
          if s.status[depID].value != Running {
            ghost var mid := visited.Keys;
            assert depID in IdleDeps(s, c);
            visited := visited[depID := s.store[depID]];
            assert visited.Keys == mid + {depID};
            var found := GetAllDependencies(s.store[depID]);
            if !found {
              FaultThrough(s, c, depID);
              return false;
            }
            CollectsOneMore(s, c, depID, before, mid, visited.Keys);
          }
        }
      }
      DealtWithAll(s, c, depIDs, visited.Keys);
      ok := true;
    }
  }

  lemma DealtWithAll(s: Snapshot, c: ContainerConfig, deps: seq<Id>, visited: set<Id>)
    requires Lists(deps, DependencySet(c)) && DealtWith(s, deps, |deps|, visited)
    ensures IdleDeps(s, c) <= visited && !Faulty(s, c)
  {
    forall d | d in DependencySet(c) ensures Loads(s, d) && (IsIdle(s, d) ==> d in visited) {
      assert d in deps;
      var j :| 0 <= j < |deps| && deps[j] == d;
    }
  }

  /** A collection that starts from nothing is exactly what is reached. */
  lemma CollectsAll(s: Snapshot, c: ContainerConfig, all: set<Id>)
    requires Collects(s, c, {}, all) && IdleDeps(s, c) <= all && !Faulty(s, c)
    ensures forall d {:trigger ReachedFrom(s, c, d)} :: d in all <==> ReachedFrom(s, c, d)
    ensures !FaultReached(s, c)
  {
    var g := IdleGraph(s);
    forall d | d in all ensures CollectedFor(s, c, d, all) { assert d in all - {}; }
    assert ClosedUnder(g, all);
    forall d | ReachedFrom(s, c, d) ensures d in all {
      var m :| m in IdleDeps(s, c) && Reaches(g, m, d);
    }
  }

  /** All that `c` names as a dependency is running or among those to be started. */
  ghost predicate Provided(s: Snapshot, c: ContainerConfig, started: set<Id>) {
    forall d {:trigger Names(c, d)} ::
      Names(c, d) ==> d in started || (d in s.status && s.status[d] == Some(Running))
  }

  /** Once `started` are started, `c` can be, and so can each of them when its turn comes. */
  ghost predicate Suffices(s: Snapshot, c: ContainerConfig, started: set<Id>) {
    && Provided(s, c, started)
    && forall m {:trigger s.store[m]} :: m in started && m in s.store ==> Provided(s, s.store[m], started)
  }

  lemma ProvidedIff(s: Snapshot, c: ContainerConfig, started: set<Id>)
    requires !Faulty(s, c)
    ensures Provided(s, c, started) <==> IdleDeps(s, c) <= started
  {
    forall d ensures d in DependencySet(c) <==> Names(c, d) { DependenciesAreNamed(c, d); }
    forall d | d in DependencySet(c) ensures Loads(s, d) {}
  }

  /** The containers collected suffice, and no smaller set does. */
  lemma CollectsTheLeast(s: Snapshot, c: ContainerConfig, all: set<Id>)
    requires Collects(s, c, {}, all) && IdleDeps(s, c) <= all && !Faulty(s, c)
    ensures Suffices(s, c, all)
    ensures forall started {:trigger Suffices(s, c, started)} :: Suffices(s, c, started) ==> all <= started
  {
    var g := IdleGraph(s);
    forall d | d in all ensures CollectedFor(s, c, d, all) { assert d in all - {}; }
    ProvidedIff(s, c, all);
    forall m | m in all && m in s.store ensures Provided(s, s.store[m], all) {
      assert CollectedFor(s, c, m, all);
      ProvidedIff(s, s.store[m], all);
    }
    forall started | Suffices(s, c, started) ensures all <= started { CollectedAreNeeded(s, c, all, started); }
  }

  lemma IdleAreProvided(s: Snapshot, c: ContainerConfig, started: set<Id>)
    requires Provided(s, c, started)
    ensures IdleDeps(s, c) <= started
  {
    forall d | d in IdleDeps(s, c) ensures d in started {
      DependenciesAreNamed(c, d);
      assert Names(c, d);
    }
  }

  lemma CollectedAreNeeded(s: Snapshot, c: ContainerConfig, all: set<Id>, started: set<Id>)
    requires Collects(s, c, {}, all) && Suffices(s, c, started)
    ensures all <= started
  {
    var g := IdleGraph(s);
    IdleAreProvided(s, c, started);
    forall n, m | n in started && n in g && m in g[n] ensures m in started { IdleAreProvided(s, s.store[n], started); }
    forall d | d in all ensures d in started {
      assert d in all - {};
      assert CollectedFor(s, c, d, all);
      var m :| m in IdleDeps(s, c) && Reaches(g, m, d);
      ReachesStaysIn(g, started, m, d);
    }
  }

  /** Terminates on every snapshot, cyclic or not. Fails exactly when a dependency that has to be looked at
      does not load, and otherwise collects exactly what is reached: the least set of containers that are not
      running and that suffice. */
  method CollectDependencies(s: Snapshot, c: ContainerConfig) returns (r: Option<map<Id, ContainerConfig>>)
    ensures r.None? <==> FaultReached(s, c)
    ensures r.Some? ==> forall d {:trigger ReachedFrom(s, c, d)} :: d in r.value <==> ReachedFrom(s, c, d)
    ensures r.Some? ==> forall d {:trigger r.value[d]} :: d in r.value ==> d in s.store && r.value[d] == s.store[d]
    ensures r.Some? ==> forall d {:trigger r.value[d]} :: d in r.value ==>
              d in s.status && s.status[d].Some? && s.status[d] != Some(Running)
    ensures r.Some? ==> Suffices(s, c, r.value.Keys)
    ensures r.Some? ==> forall started {:trigger Suffices(s, c, started)} :: Suffices(s, c, started) ==> r.value.Keys <= started
  {
    var collector := new Collector(s);
    var ok := collector.GetAllDependencies(c);
    if !ok {
      return None;
    }
    CollectsAll(s, c, collector.visited.Keys);
    CollectsTheLeast(s, c, collector.visited.Keys);
    return Some(collector.visited);
  }
}
