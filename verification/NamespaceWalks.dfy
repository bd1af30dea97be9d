/** Walks from a container to the container whose namespace it joins, and on to the one at the end. */
module NamespaceWalks {
  import opened Digraphs
  import opened Containers
  import opened Databases
  import opened DatabaseRuns

  datatype Namespace = Net | UTS

  function Joined(cfg: ContainerConfig, ns: Namespace): Option<Id> {
    match ns
    case Net => cfg.netNsCtr
    case UTS => cfg.utsNsCtr
  }

  /** The container that is `k` hops away from `c`; a hop into a container that is not stored is the last. */
  function Hop(db: Database, ns: Namespace, c: Id, k: nat): Option<Id> {
    if k == 0 then Some(c)
    else
      var x := Hop(db, ns, c, k - 1);
      if x.Some? && x.value in db.ctrs then Joined(db.ctrs[x.value].config, ns) else None
  }

  /** `e` is at the end of the walk from `c`. */
  ghost predicate EndsAt(db: Database, ns: Namespace, c: Id, e: Id) {
    e in db.ctrs && Joined(db.ctrs[e].config, ns).None? && exists k: nat :: Hop(db, ns, c, k) == Some(e)
  }

  /** No container names itself. */
  ghost predicate NoSelfReference(db: Database) {
    forall c {:trigger Deps(db, c)} :: c in db.ctrs ==> c !in Deps(db, c)
  }

  // ---------------------------------------------------------------- walks in a database without cycles

  lemma JoinedIsDependency(cfg: ContainerConfig, ns: Namespace)
    requires Joined(cfg, ns).Some?
    ensures Joined(cfg, ns).value in DependencySet(cfg)
  {
    DependenciesAreNamed(cfg, Joined(cfg, ns).value);
  }

  /** The container joined is stored, and ranks lower unless it is the container itself. */
  lemma JoinedIsLower(db: Database, rank: map<Id, nat>, c: Id, ns: Namespace)
    requires Dependents(db) && Ranked(Stored(db), rank) && c in db.ctrs && Joined(db.ctrs[c].config, ns).Some?
    ensures var n := Joined(db.ctrs[c].config, ns).value;
            n in db.ctrs && n in Deps(db, c) && (n != c ==> rank[n] < rank[c])
  {
    var n := Joined(db.ctrs[c].config, ns).value;
    JoinedIsDependency(db.ctrs[c].config, ns);
    assert n in Deps(db, c);
    assert DepStored(db, c, n);
    assert n in Stored(db)[c];
  }

  ghost predicate Walkable(db: Database, rank: map<Id, nat>, c: Id) {
    Dependents(db) && Ranked(Stored(db), rank) && NoSelfReference(db) && c in db.ctrs
  }

  lemma WalkableNext(db: Database, rank: map<Id, nat>, c: Id, ns: Namespace)
    requires Walkable(db, rank, c) && Joined(db.ctrs[c].config, ns).Some?
    ensures var n := Joined(db.ctrs[c].config, ns).value; n in rank && Walkable(db, rank, n) && rank[n] < rank[c]
  {
    JoinedIsLower(db, rank, c, ns);
    assert c !in Deps(db, c);
  }

  /** The ports of the container, or those of the container whose network namespace it joins. */
  function PortMappings(db: Database, c: Id, ghost rank: map<Id, nat>): Option<seq<PortMapping>>
    requires Walkable(db, rank, c)
    decreases rank[c]
  {
    var cfg := db.ctrs[c].config;
    if cfg.netNsCtr.Some? then
      WalkableNext(db, rank, c, Net);
      var n := cfg.netNsCtr.value;
      if n !in db.ctrs then None else PortMappings(db, n, rank)
    else Some(cfg.portMappings)
  }

  function NetworkDisabled(db: Database, c: Id, ghost rank: map<Id, nat>): Option<bool>
    requires Walkable(db, rank, c)
    decreases rank[c]
  {
    var cfg := db.ctrs[c].config;
    if cfg.netNsCtr.Some? then
      WalkableNext(db, rank, c, Net);
      var n := cfg.netNsCtr.value;
      if n !in db.ctrs then None else NetworkDisabled(db, n, rank)
    else Some(cfg.networkDisabled)
  }

  /** A host name; an ID of eleven characters would crash the program, which cuts it after the twelfth. */
  datatype HostName = HostName(name: string) | Crash

  /** The configured host name, or the beginning of the container's ID. */
  function OwnHostname(cfg: ContainerConfig, text: Id -> string): HostName {
    var id := text(cfg.id);
    if cfg.hostname != "" then HostName(cfg.hostname)
    else if |id| < 11 then HostName(id)
    else if |id| < 12 then Crash
    else HostName(id[..12])
  }

  /** A look-up that fails gives an empty host name. `text` is how IDs are written. */
  function Hostname(db: Database, c: Id, text: Id -> string, ghost rank: map<Id, nat>): HostName
    requires Walkable(db, rank, c)
    decreases rank[c]
  {
    var cfg := db.ctrs[c].config;
    if cfg.utsNsCtr.Some? then
      WalkableNext(db, rank, c, UTS);
      var n := cfg.utsNsCtr.value;
      if n !in db.ctrs then HostName("") else Hostname(db, n, text, rank)
    else OwnHostname(cfg, text)
  }

  lemma {:induction false} HopFromNext(db: Database, ns: Namespace, c: Id, n: Id, k: nat)
    requires c in db.ctrs && Joined(db.ctrs[c].config, ns) == Some(n)
    ensures Hop(db, ns, c, k + 1) == Hop(db, ns, n, k)
  {
    if k > 0 {
      HopFromNext(db, ns, c, n, k - 1);
    } else {
      assert Hop(db, ns, c, 0) == Some(c);
    }
  }

  lemma EndsAtNext(db: Database, ns: Namespace, c: Id, n: Id, e: Id)
    requires c in db.ctrs && Joined(db.ctrs[c].config, ns) == Some(n) && EndsAt(db, ns, n, e)
    ensures EndsAt(db, ns, c, e)
  {
    var k: nat :| Hop(db, ns, n, k) == Some(e);
    HopFromNext(db, ns, c, n, k);
  }

  /** Every walk comes to an end. */
  lemma {:induction false} WalkEnds(db: Database, ns: Namespace, c: Id, text: Id -> string, rank: map<Id, nat>) returns (e: Id)
    requires Walkable(db, rank, c)
    ensures EndsAt(db, ns, c, e)
    ensures ns.Net? ==> PortMappings(db, c, rank) == Some(db.ctrs[e].config.portMappings)
    ensures ns.Net? ==> NetworkDisabled(db, c, rank) == Some(db.ctrs[e].config.networkDisabled)
    ensures ns.UTS? ==> Hostname(db, c, text, rank) == OwnHostname(db.ctrs[e].config, text)
    ensures (if ns.Net? then db.ctrs[e].config.netNsCtr else db.ctrs[e].config.utsNsCtr).None?
    ensures var next := if ns.Net? then db.ctrs[c].config.netNsCtr else db.ctrs[c].config.utsNsCtr;
            if next.None? then e == c else EndsAt(db, ns, next.value, e)
    decreases rank[c]
  {
    var next := Joined(db.ctrs[c].config, ns);
    if next.None? {
      e := c;
      assert Hop(db, ns, c, 0) == Some(e);
    } else {
      WalkableNext(db, rank, c, ns);
      e := WalkEnds(db, ns, next.value, text, rank);
      EndsAtNext(db, ns, c, next.value, e);
    }
  }

  /** The host name at the end of the walk: the configured one, or else the first twelve characters of the ID. */
  lemma HostnameAtEnd(db: Database, c: Id, text: Id -> string, rank: map<Id, nat>) returns (e: Id)
    requires Walkable(db, rank, c)
    ensures EndsAt(db, UTS, c, e)
    ensures var cfg, h := db.ctrs[e].config, Hostname(db, c, text, rank);
            && (cfg.hostname != "" ==> h == HostName(cfg.hostname))
            && (cfg.hostname == "" ==> (h.Crash? <==> |text(cfg.id)| == 11))
            && (cfg.hostname == "" && h.HostName? ==> h.name <= text(cfg.id) && (|h.name| == 12 || h.name == text(cfg.id)))
  {
    e := WalkEnds(db, UTS, c, text, rank);
  }

  lemma {:induction false} HopsAfterEnd(db: Database, ns: Namespace, c: Id, e: Id, k: nat, j: nat)
    requires Hop(db, ns, c, k) == Some(e) && e in db.ctrs && Joined(db.ctrs[e].config, ns).None? && k < j
    ensures Hop(db, ns, c, j).None?
  {
    if k + 1 < j { HopsAfterEnd(db, ns, c, e, k, j - 1); }
  }

  /** There is only one end. */
  lemma EndIsUnique(db: Database, ns: Namespace, c: Id, d: Id, e: Id)
    requires EndsAt(db, ns, c, d) && EndsAt(db, ns, c, e)
    ensures d == e
  {
    var i: nat :| Hop(db, ns, c, i) == Some(d);
    var j: nat :| Hop(db, ns, c, j) == Some(e);
    if i < j { HopsAfterEnd(db, ns, c, d, i, j); }
    if j < i { HopsAfterEnd(db, ns, c, e, j, i); }
  }

  /** In every database that a run reaches, if no container names itself, the walks terminate without a failed
      look-up, and give what the container at the one end of the walk has configured. */
  lemma WalksOfRun(ops: seq<Op>, c: Id, text: Id -> string) returns (rank: map<Id, nat>, net: Id, uts: Id)
    requires LegalRun(ops) && NoSelfReference(After(ops)) && c in After(ops).ctrs
    ensures var db := After(ops);
            && Walkable(db, rank, c) && EndsAt(db, Net, c, net) && EndsAt(db, UTS, c, uts)
            && (forall e :: EndsAt(db, Net, c, e) ==> e == net) && (forall e :: EndsAt(db, UTS, c, e) ==> e == uts)
            && PortMappings(db, c, rank) == Some(db.ctrs[net].config.portMappings)
            && NetworkDisabled(db, c, rank) == Some(db.ctrs[net].config.networkDisabled)
            && Hostname(db, c, text, rank) == OwnHostname(db.ctrs[uts].config, text)
  {
    RunsAreConsistent(ops);
    var db := After(ops);
    rank :| Ranked(Stored(db), rank);
    net := WalkEnds(db, Net, c, text, rank);
    uts := WalkEnds(db, UTS, c, text, rank);
    forall e | EndsAt(db, Net, c, e) ensures e == net { EndIsUnique(db, Net, c, e, net); }
    forall e | EndsAt(db, UTS, c, e) ensures e == uts { EndIsUnique(db, UTS, c, e, uts); }
  }

  // ---------------------------------------------------------------- the walk that watches for loops

  datatype RootResult = Root(id: Id) | Loop | NotFound | NoDependency

  /** The walk from `c` comes back to a container that it has passed. */
  ghost predicate ComesBack(db: Database, c: Id) {
    exists i: nat, j: nat {:trigger SameHop(db, c, i, j)} :: i < j && SameHop(db, c, i, j)
  }

  ghost predicate SameHop(db: Database, c: Id, i: nat, j: nat) {
    Hop(db, Net, c, i).Some? && Hop(db, Net, c, i) == Hop(db, Net, c, j)
  }

  /** The walk from `c` leads to a container that is not stored. */
  ghost predicate LeadsNowhere(db: Database, c: Id) {
    exists k: nat :: k > 0 && Hop(db, Net, c, k).Some? && Hop(db, Net, c, k).value !in db.ctrs
  }

  ghost predicate Passed(db: Database, c: Id, k: nat, x: Id) {
    exists i: nat :: i <= k && Hop(db, Net, c, i) == Some(x)
  }

  lemma {:induction false} HopsShift(db: Database, c: Id, i: nat, j: nat, m: nat)
    requires Hop(db, Net, c, i) == Hop(db, Net, c, j)
    ensures Hop(db, Net, c, i + m) == Hop(db, Net, c, j + m)
  {
    if m > 0 { HopsShift(db, c, i, j, m - 1); }
  }

  /** After hop `k` there is no other. */
  ghost predicate LastHop(db: Database, c: Id, k: nat) {
    Hop(db, Net, c, k).Some? && Hop(db, Net, c, k + 1).None?
  }

  lemma {:induction false} NoHopAfterLast(db: Database, c: Id, k: nat, j: nat)
    requires LastHop(db, c, k) && k < j
    ensures Hop(db, Net, c, j).None?
  {
    if k + 1 < j { NoHopAfterLast(db, c, k, j - 1); }
  }

  /** A walk with a last hop does not come back. */
  lemma LastHopMeansNoLoop(db: Database, c: Id, k: nat)
    requires LastHop(db, c, k)
    ensures !ComesBack(db, c)
  {
    if ComesBack(db, c) {
      var i: nat, j: nat :| i < j && SameHop(db, c, i, j);
      if j > k {
        NoHopAfterLast(db, c, k, j);
      } else {
        HopsShift(db, c, i, j, k - i);
        NoHopAfterLast(db, c, k, j + (k - i));
      }
    }
  }

  lemma OneLastHop(db: Database, c: Id, i: nat, j: nat)
    requires LastHop(db, c, i) && LastHop(db, c, j)
    ensures i == j
  {
    if i < j { NoHopAfterLast(db, c, i, j); }
    if j < i { NoHopAfterLast(db, c, j, i); }
  }

  /** A walk ends, leads nowhere, or comes back: no two of these. */
  lemma WalkOutcomesDiffer(db: Database, c: Id)
    requires c in db.ctrs
    ensures (exists e :: EndsAt(db, Net, c, e)) ==> !ComesBack(db, c) && !LeadsNowhere(db, c)
    ensures LeadsNowhere(db, c) ==> !ComesBack(db, c)
  {
    if e :| EndsAt(db, Net, c, e) {
      var k: nat :| Hop(db, Net, c, k) == Some(e);
      LastHopMeansNoLoop(db, c, k);
      if LeadsNowhere(db, c) {
        var j: nat :| j > 0 && Hop(db, Net, c, j).Some? && Hop(db, Net, c, j).value !in db.ctrs;
        OneLastHop(db, c, k, j);
      }
    }
    if LeadsNowhere(db, c) {
      var j: nat :| j > 0 && Hop(db, Net, c, j).Some? && Hop(db, Net, c, j).value !in db.ctrs;
      LastHopMeansNoLoop(db, c, j);
    }
  }

  /** Follows network namespaces to the end. On any database at all it terminates, reports a loop exactly when
      the walk comes back, and otherwise gives the container at the end. */
  method GetRootNetNsDepCtr(db: Database, cfg: ContainerConfig) returns (r: RootResult)
    requires cfg.id in db.ctrs && db.ctrs[cfg.id].config == cfg
    ensures r.NoDependency? <==> cfg.netNsCtr.None?
    ensures r.Root? ==> EndsAt(db, Net, cfg.id, r.id)
    ensures r.Root? <==> cfg.netNsCtr.Some? && exists e :: EndsAt(db, Net, cfg.id, e)
    ensures r.Loop? <==> ComesBack(db, cfg.id)
    ensures r.NotFound? <==> LeadsNowhere(db, cfg.id)
  {
    r := FollowNetNs(db, cfg);
    if r.NoDependency? {
      assert Hop(db, Net, cfg.id, 0) == Some(cfg.id);
      assert EndsAt(db, Net, cfg.id, cfg.id);
    }
    WalkOutcomesDiffer(db, cfg.id);
  }

  method FollowNetNs(db: Database, cfg: ContainerConfig) returns (r: RootResult)
    requires cfg.id in db.ctrs && db.ctrs[cfg.id].config == cfg
    ensures r.NoDependency? <==> cfg.netNsCtr.None?
    ensures r.Root? ==> EndsAt(db, Net, cfg.id, r.id)
    ensures r.Loop? ==> ComesBack(db, cfg.id)
    ensures r.NotFound? ==> LeadsNowhere(db, cfg.id)
  {
    var visited := {cfg.id};
    var nextCtr := cfg.netNsCtr;
    var depCtr: Option<Id> := None;
    ghost var k: nat := 0;
    assert Hop(db, Net, cfg.id, 0) == Some(cfg.id);
    while nextCtr.Some?
      invariant nextCtr == Hop(db, Net, cfg.id, k + 1)
      invariant forall x {:trigger x in visited} :: x in visited ==> x in db.ctrs && Passed(db, cfg.id, k, x)
      invariant k == 0 ==> depCtr.None? && nextCtr == cfg.netNsCtr
      invariant k > 0 ==> depCtr.Some? && depCtr == Hop(db, Net, cfg.id, k) && depCtr.value in db.ctrs && cfg.netNsCtr.Some?
      decreases db.ctrs.Keys - visited
    {
      var next := nextCtr.value;
      if next in visited {
        assert Passed(db, cfg.id, k, next);
        ghost var i: nat :| i <= k && Hop(db, Net, cfg.id, i) == Some(next);
        assert SameHop(db, cfg.id, i, k + 1);
        return Loop;
      }
      if next !in db.ctrs {
        return NotFound;
      }
      visited := visited + {next};
      depCtr := Some(next);
      nextCtr := db.ctrs[next].config.netNsCtr;
      k := k + 1;
      assert Passed(db, cfg.id, k, next);
      forall x | x in visited ensures x in db.ctrs && Passed(db, cfg.id, k, x) {
        if x != next {
          assert Passed(db, cfg.id, k - 1, x);
          var i: nat :| i <= k - 1 && Hop(db, Net, cfg.id, i) == Some(x);
        }
      }
    }
    if depCtr.None? {
      return NoDependency;
    }
    r := Root(depCtr.value);
  }

  /** The walk from `c` reaches a container that joins its own network namespace. */
  ghost predicate ReachesSelf(db: Database, c: Id) {
    exists k: nat {:trigger JoinsItself(db, Hop(db, Net, c, k))} :: JoinsItself(db, Hop(db, Net, c, k))
  }

  ghost predicate JoinsItself(db: Database, x: Option<Id>) {
    x.Some? && x.value in db.ctrs && db.ctrs[x.value].config.netNsCtr == x
  }

  /** The rank of hop `j`, if there is one. */
  ghost function RankAt(db: Database, rank: map<Id, nat>, c: Id, j: nat): int {
    var x := Hop(db, Net, c, j);
    if x.Some? && x.value in rank then rank[x.value] else -1
  }

  ghost predicate GoesDown(db: Database, rank: map<Id, nat>, c: Id, k: nat) {
    Hop(db, Net, c, k + 1).Some? ==> RankAt(db, rank, c, k + 1) < RankAt(db, rank, c, k)
  }

  lemma NextHopIsLower(db: Database, rank: map<Id, nat>, c: Id, j: nat)
    requires Dependents(db) && Ranked(Stored(db), rank) && c in db.ctrs && !ReachesSelf(db, c)
    ensures GoesDown(db, rank, c, j)
  {
    var x := Hop(db, Net, c, j);
    if Hop(db, Net, c, j + 1).Some? {
      assert !JoinsItself(db, x);
      JoinedIsLower(db, rank, x.value, Net);
    }
  }

  /** If every hop goes down, so do all together. */
  lemma {:induction false} HopsAreLower(db: Database, rank: map<Id, nat>, c: Id, i: nat, j: nat)
    requires forall k: nat {:trigger GoesDown(db, rank, c, k)} :: GoesDown(db, rank, c, k)
    requires i < j && Hop(db, Net, c, j).Some?
    ensures RankAt(db, rank, c, j) < RankAt(db, rank, c, i)
    decreases j
  {
    assert GoesDown(db, rank, c, j - 1);
    if i < j - 1 { HopsAreLower(db, rank, c, i, j - 1); }
  }

  lemma EveryHopGoesDown(db: Database, rank: map<Id, nat>, c: Id)
    requires Dependents(db) && Ranked(Stored(db), rank) && c in db.ctrs && !ReachesSelf(db, c)
    ensures forall k: nat {:trigger GoesDown(db, rank, c, k)} :: GoesDown(db, rank, c, k)
  {
    forall k: nat ensures GoesDown(db, rank, c, k) { NextHopIsLower(db, rank, c, k); }
  }

  lemma NoSelfNoLoop(db: Database, rank: map<Id, nat>, c: Id, i: nat, j: nat)
    requires Dependents(db) && Ranked(Stored(db), rank) && c in db.ctrs && !ReachesSelf(db, c) && i < j
    ensures !SameHop(db, c, i, j)
  {
    EveryHopGoesDown(db, rank, c);
    if SameHop(db, c, i, j) { HopsAreLower(db, rank, c, i, j); }
  }

  /** In a database without cycles, the only loops are containers that join their own network namespace. */
  lemma LoopsAreSelfReferences(db: Database, rank: map<Id, nat>, c: Id)
    requires Dependents(db) && Ranked(Stored(db), rank) && c in db.ctrs
    ensures ComesBack(db, c) <==> ReachesSelf(db, c)
  {
    if ReachesSelf(db, c) {
      var k: nat :| JoinsItself(db, Hop(db, Net, c, k));
      assert SameHop(db, c, k, k + 1);
    } else {
      forall i: nat, j: nat | i < j ensures !SameHop(db, c, i, j) { NoSelfNoLoop(db, rank, c, i, j); }
    }
  }

  /** In every database that a run reaches, if no container names itself, a container that joins another's
      network namespace has a root, and no loop is ever reported. */
  method RootOfRun(ghost ops: seq<Op>, db: Database, cfg: ContainerConfig) returns (r: RootResult)
    requires LegalRun(ops) && db == After(ops) && NoSelfReference(db)
    requires cfg.id in db.ctrs && db.ctrs[cfg.id].config == cfg && cfg.netNsCtr.Some?
    ensures r.Root? && r.id in db.ctrs && db.ctrs[r.id].config.netNsCtr.None? && EndsAt(db, Net, cfg.id, r.id)
  {
    ghost var rank, net, uts := WalksOfRun(ops, cfg.id, _ => "");
    r := GetRootNetNsDepCtr(db, cfg);
  }
}
