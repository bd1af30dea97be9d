/** Container configuration and the dependencies it names. */
module Containers {
  import opened Digraphs

  /** Container, pod and volume names. They are only ever compared. */
  type Name(==, !new)

  /** An optional reference, which the configuration spells as a possibly empty string. */
  datatype Option<T> = None | Some(value: T) {
    function GetOr(default: T): T {
      if Some? then value else default
    }
  }

  datatype ContainerStatus =
    Unknown | Configured | Created | Running | Stopped | Paused | Exited | Removing | Stopping

  datatype PortMapping = PortMapping(hostIP: string, containerPort: int, hostPort: int, range: int, protocol: string)

  /** The configuration fields that the state, the dependency graph and the namespace walks read.
      `networkDisabled` is what the configuration alone says when no other container's network
      namespace is joined. */
  datatype ContainerConfig = ContainerConfig(
    id: Id,
    name: Name,
    pod: Option<Id>,
    ipcNsCtr: Option<Id>,
    mountNsCtr: Option<Id>,
    netNsCtr: Option<Id>,
    pidNsCtr: Option<Id>,
    userNsCtr: Option<Id>,
    utsNsCtr: Option<Id>,
    cgroupNsCtr: Option<Id>,
    dependencies: seq<Id>,
    namedVolumes: seq<Name>,
    portMappings: seq<PortMapping>,
    hostname: string,
    networkDisabled: bool)

  function Elems<T>(s: seq<T>): set<T> {
    set x | x in s
  }

  ghost predicate NoDuplicates<T>(s: seq<T>) {
    forall i, j :: 0 <= i < j < |s| ==> Differ(s, i, j)
  }

  ghost predicate Differ<T>(s: seq<T>, i: int, j: int) {
    0 <= i < |s| && 0 <= j < |s| && s[i] != s[j]
  }

  lemma NotTwice<T>(s: seq<T>, i: nat)
    requires NoDuplicates(s) && i < |s|
    ensures s[i] !in s[..i] && s[i] !in s[i + 1..]
  {
    forall j | 0 <= j < |s| && j != i ensures s[j] != s[i] {
      assert if j < i then Differ(s, j, i) else Differ(s, i, j);
    }
  }

  lemma NoDuplicatesAppend<T>(s: seq<T>, x: T)
    requires NoDuplicates(s) && x !in s
    ensures NoDuplicates(s + [x])
  {
    forall i, j | 0 <= i < j < |s + [x]| ensures Differ(s + [x], i, j) {
      assert s[i] in s;
      assert j < |s| ==> Differ(s, i, j);
    }
  }

  lemma NoDuplicatesPrefix<T>(s: seq<T>, k: nat)
    requires NoDuplicates(s) && k <= |s|
    ensures NoDuplicates(s[..k])
  {
    forall i, j | 0 <= i < j < k ensures Differ(s[..k], i, j) { assert Differ(s, i, j); }
  }

  lemma KeysOfUpdate<K, V>(m: map<K, V>, k: K, v: V)
    ensures m[k := v].Keys == m.Keys + {k}
  {
  }

  /** `s` lists every element of `elems` exactly once, in some order. */
  ghost predicate Lists<T(!new)>(s: seq<T>, elems: set<T>) {
    && NoDuplicates(s)
    && forall x :: x in s <==> x in elems
  }

  lemma ListsAppend<T(!new)>(s: seq<T>, elems: set<T>, x: T)
    requires Lists(s, elems) && x !in elems
    ensures Lists(s + [x], elems + {x})
  {
    var t := s + [x];
    NoDuplicatesAppend(s, x);
    forall y ensures y in t <==> y in elems + {x} {
      assert y in t <==> y in s || y == x;
    }
  }

  lemma ElemsTakeOneMore<T>(s: seq<T>, i: nat)
    requires i < |s|
    ensures Elems(s[..i + 1]) == Elems(s[..i]) + {s[i]}
    ensures NoDuplicates(s) ==> s[i] !in Elems(s[..i])
  {
    assert s[..i + 1] == s[..i] + [s[i]];
    if NoDuplicates(s) { NotTwice(s, i); }
  }

  lemma ElemsTakeAll<T>(s: seq<T>)
    ensures Elems(s[..0]) == {} && Elems(s[..|s|]) == Elems(s)
  {
    assert s[..|s|] == s;
  }

  lemma ElemsDropOneMore<T>(s: seq<T>, i: nat)
    requires i < |s| && NoDuplicates(s)
    ensures Elems(s[i..]) - {s[i]} == Elems(s[i + 1..]) && s[i] in Elems(s[i..])
  {
    assert s[i..] == [s[i]] + s[i + 1..];
    NotTwice(s, i);
  }

  /** Moving one element from what is left to what is done. */
  lemma TakeFromRest<T>(all: set<T>, rest: set<T>, x: T)
    requires x in rest && rest <= all
    ensures all - rest + {x} == all - (rest - {x})
  {
  }

  function NamespaceRefs(c: ContainerConfig): seq<Option<Id>> {
    [c.ipcNsCtr, c.mountNsCtr, c.netNsCtr, c.pidNsCtr, c.userNsCtr, c.utsNsCtr, c.cgroupNsCtr]
  }

  function Referenced(refs: seq<Option<Id>>): set<Id> {
    if refs == [] then {}
    else
      var last := refs[|refs| - 1];
      Referenced(refs[..|refs| - 1]) + (if last.None? then {} else {last.value})
  }

  /** Every container that `c` depends on: those whose namespaces it joins, and the generic dependencies. */
  function DependencySet(c: ContainerConfig): set<Id> {
    Referenced(NamespaceRefs(c)) + Elems(c.dependencies)
  }

  lemma {:induction false} ReferencedHolds(refs: seq<Option<Id>>, x: Id)
    ensures x in Referenced(refs) <==> Some(x) in refs
  {
    if refs != [] {
      ReferencedHolds(refs[..|refs| - 1], x);
      assert refs == refs[..|refs| - 1] + [refs[|refs| - 1]];
    }
  }

  /** The configuration names `d`: as the container whose IPC, mount, network, PID, user, UTS or cgroup namespace
      is joined, or as a generic dependency. */
  predicate Names(c: ContainerConfig, d: Id) {
    || c.ipcNsCtr == Some(d) || c.mountNsCtr == Some(d) || c.netNsCtr == Some(d) || c.pidNsCtr == Some(d)
    || c.userNsCtr == Some(d) || c.utsNsCtr == Some(d) || c.cgroupNsCtr == Some(d)
    || d in c.dependencies
  }

  /** The dependencies are the containers that the configuration names, and no others. */
  lemma DependenciesAreNamed(c: ContainerConfig, d: Id)
    ensures d in DependencySet(c) <==>
              || c.ipcNsCtr == Some(d) || c.mountNsCtr == Some(d) || c.netNsCtr == Some(d) || c.pidNsCtr == Some(d)
              || c.userNsCtr == Some(d) || c.utsNsCtr == Some(d) || c.cgroupNsCtr == Some(d)
              || d in c.dependencies
  {
    ReferencedHolds(NamespaceRefs(c), d);
    var refs := NamespaceRefs(c);
    assert refs[0] == c.ipcNsCtr && refs[1] == c.mountNsCtr && refs[2] == c.netNsCtr && refs[3] == c.pidNsCtr;
    assert refs[4] == c.userNsCtr && refs[5] == c.utsNsCtr && refs[6] == c.cgroupNsCtr;
  }

  /** Collects the dependencies without duplicates; the result comes in no particular order. */
  method Dependencies(c: ContainerConfig) returns (depends: seq<Id>)
    ensures Lists(depends, DependencySet(c))
    ensures NoDuplicates(depends)
    ensures forall d {:trigger d in depends} :: d in depends <==>
              || c.ipcNsCtr == Some(d) || c.mountNsCtr == Some(d) || c.netNsCtr == Some(d) || c.pidNsCtr == Some(d)
              || c.userNsCtr == Some(d) || c.utsNsCtr == Some(d) || c.cgroupNsCtr == Some(d)
              || d in c.dependencies
  {
    forall d ensures d in DependencySet(c) <==> Names(c, d) { DependenciesAreNamed(c, d); }
    depends := CollectDependencies(c);
    forall d ensures d in depends <==> Names(c, d) {}
  }

  /** The namespaces joined first, then the generic dependencies. */
  method CollectDependencies(c: ContainerConfig) returns (depends: seq<Id>)
    ensures Lists(depends, DependencySet(c))
  {
    var dependsCtrs: set<Id> := {};
    var refs := NamespaceRefs(c);
    for i := 0 to |refs|
      invariant dependsCtrs == Referenced(refs[..i])
    {
      assert refs[..i + 1][..i] == refs[..i];
      if refs[i].Some? {
        dependsCtrs := dependsCtrs + {refs[i].value};
      }
    }
    assert refs[..|refs|] == refs;
    for i := 0 to |c.dependencies|
      invariant dependsCtrs == Referenced(refs) + Elems(c.dependencies[..i])
    {
      dependsCtrs := dependsCtrs + {c.dependencies[i]};
      ElemsTakeOneMore(c.dependencies, i);
    }
    assert c.dependencies[..|c.dependencies|] == c.dependencies;
    depends := KeysInSomeOrder(dependsCtrs);
  }

  /** Go's iteration over the keys of a map: each key once, in an arbitrary order. */
  method KeysInSomeOrder(keys: set<Id>) returns (order: seq<Id>)
    ensures Lists(order, keys)
  {
    order := [];
    var rest := keys;
    while rest != {}
      invariant rest <= keys && Lists(order, keys - rest)
      decreases rest
    {
      var k :| k in rest;
      ListsAppend(order, keys - rest, k);
      TakeFromRest(keys, rest, k);
      order := order + [k];
      rest := rest - {k};
    }
    assert keys - rest == keys;
  }
}
