/** The order of port mappings, and sorting by it. */
module PortSorting {

  /** A port mapping in the old format: one port, with 32-bit port numbers. */
  datatype OldPort = OldPort(hostPort: int, containerPort: int, protocol: string, hostIP: string)

  /** Strings compare character by character. */
  predicate LexLess(a: string, b: string) {
    b != [] && (a == [] || a[0] < b[0] || (a[0] == b[0] && LexLess(a[1..], b[1..])))
  }

  /** By host IP, then protocol, then host port, then container port. */
  predicate Before(i: OldPort, j: OldPort) {
    if i.hostIP != j.hostIP then LexLess(i.hostIP, j.hostIP)
    else if i.protocol != j.protocol then LexLess(i.protocol, j.protocol)
    else if i.hostPort != j.hostPort then i.hostPort < j.hostPort
    else i.containerPort < j.containerPort
  }

  /** `a` and `b` agree up to `k`, where `a` ends or has the smaller character. */
  ghost predicate DiffersAt(a: string, b: string, k: nat) {
    k <= |a| && k < |b| && a[..k] == b[..k] && (k == |a| || a[k] < b[k])
  }

  /** The first difference decides. */
  lemma {:induction false} LexLessIff(a: string, b: string)
    ensures LexLess(a, b) <==> exists k: nat :: DiffersAt(a, b, k)
  {
    if a == [] || b == [] || a[0] != b[0] {
      assert b != [] && (a == [] || a[0] < b[0]) ==> DiffersAt(a, b, 0);
    } else {
      LexLessIff(a[1..], b[1..]);
      if k: nat :| DiffersAt(a[1..], b[1..], k) {
        assert a[..k + 1] == [a[0]] + a[1..][..k] && b[..k + 1] == [b[0]] + b[1..][..k];
        assert DiffersAt(a, b, k + 1);
      }
      if k: nat :| DiffersAt(a, b, k) {
        assert a[1..][..k - 1] == a[..k][1..] && b[1..][..k - 1] == b[..k][1..];
        assert DiffersAt(a[1..], b[1..], k - 1);
      }
    }
  }

  lemma {:induction false} LexTotal(a: string, b: string)
    ensures a == b || LexLess(a, b) || LexLess(b, a)
  {
    if a != [] && b != [] && a[0] == b[0] {
      LexTotal(a[1..], b[1..]);
      assert a == [a[0]] + a[1..] && b == [b[0]] + b[1..];
    }
  }

  lemma {:induction false} LexAsymmetric(a: string, b: string)
    requires LexLess(a, b)
    ensures a != b && !LexLess(b, a)
  {
    if a != [] && a[0] == b[0] { LexAsymmetric(a[1..], b[1..]); }
  }

  lemma {:induction false} LexTransitive(a: string, b: string, c: string)
    requires LexLess(a, b) && LexLess(b, c)
    ensures LexLess(a, c)
  {
    if a != [] && a[0] == b[0] && b[0] == c[0] { LexTransitive(a[1..], b[1..], c[1..]); }
  }

  /** Any two port mappings that differ are ordered, one way only. */
  lemma BeforeTotal(i: OldPort, j: OldPort)
    ensures i == j || Before(i, j) || Before(j, i)
    ensures Before(i, j) ==> i != j && !Before(j, i)
  {
    LexTotal(i.hostIP, j.hostIP);
    LexTotal(i.protocol, j.protocol);
    if LexLess(i.hostIP, j.hostIP) { LexAsymmetric(i.hostIP, j.hostIP); }
    if LexLess(i.protocol, j.protocol) { LexAsymmetric(i.protocol, j.protocol); }
  }

  lemma BeforeTransitive(i: OldPort, j: OldPort, k: OldPort)
    requires Before(i, j) && Before(j, k)
    ensures Before(i, k)
  {
    if i.hostIP != j.hostIP && j.hostIP != k.hostIP {
      LexTransitive(i.hostIP, j.hostIP, k.hostIP);
      LexAsymmetric(i.hostIP, k.hostIP);
    } else if i.hostIP == j.hostIP == k.hostIP && i.protocol != j.protocol && j.protocol != k.protocol {
      LexTransitive(i.protocol, j.protocol, k.protocol);
      LexAsymmetric(i.protocol, k.protocol);
    }
  }

  /** No element is before its predecessor. */
  ghost predicate InOrder(s: seq<OldPort>) {
    forall k {:trigger s[k]} :: 0 < k < |s| ==> !Before(s[k], s[k - 1])
  }

  lemma {:induction false} FirstIsLeast(s: seq<OldPort>, k: nat)
    requires InOrder(s) && k < |s|
    ensures !Before(s[k], s[0])
  {
    if k > 0 {
      FirstIsLeast(s, k - 1);
      BeforeTotal(s[k - 1], s[k]);
      BeforeTotal(s[0], s[k - 1]);
      BeforeTotal(s[0], s[k]);
      if Before(s[k], s[0]) && s[k - 1] != s[0] && s[k] != s[k - 1] { BeforeTransitive(s[k - 1], s[k], s[0]); }
    }
  }

  function Insert(x: OldPort, s: seq<OldPort>): seq<OldPort> {
    if s == [] || !Before(s[0], x) then [x] + s else [s[0]] + Insert(x, s[1..])
  }

  function Sorted(s: seq<OldPort>): seq<OldPort> {
    if s == [] then [] else Insert(s[0], Sorted(s[1..]))
  }

  lemma InOrderTail(s: seq<OldPort>)
    requires InOrder(s) && s != []
    ensures InOrder(s[1..])
  {
    forall k | 0 < k < |s[1..]| ensures !Before(s[1..][k], s[1..][k - 1]) { assert s[1..][k] == s[k + 1]; }
  }

  lemma InOrderCons(x: OldPort, s: seq<OldPort>)
    requires InOrder(s) && (s != [] ==> !Before(s[0], x))
    ensures InOrder([x] + s)
  {
    var t := [x] + s;
    forall k | 0 < k < |t| ensures !Before(t[k], t[k - 1]) {
      assert t[k] == s[k - 1];
      assert k > 1 ==> t[k - 1] == s[k - 2];
    }
  }

  lemma HeadAndTail<T>(s: seq<T>)
    requires s != []
    ensures s == [s[0]] + s[1..] && multiset(s) == multiset{s[0]} + multiset(s[1..])
    ensures multiset(s[1..]) == multiset(s) - multiset{s[0]}
  {
    assert s == [s[0]] + s[1..];
  }

  lemma InsertFirst(x: OldPort, s: seq<OldPort>)
    ensures Insert(x, s) != [] && (Insert(x, s)[0] == x || (s != [] && Insert(x, s)[0] == s[0]))
  {
  }

  lemma {:induction false} InsertInOrder(x: OldPort, s: seq<OldPort>)
    requires InOrder(s)
    ensures InOrder(Insert(x, s))
  {
    if s == [] || !Before(s[0], x) {
      InOrderCons(x, s);
    } else {
      InOrderTail(s);
      InsertInOrder(x, s[1..]);
      InsertFirst(x, s[1..]);
      BeforeTotal(s[0], x);
      InOrderCons(s[0], Insert(x, s[1..]));
    }
  }

  lemma {:induction false} InsertKeeps(x: OldPort, s: seq<OldPort>)
    ensures multiset(Insert(x, s)) == multiset(s) + multiset{x}
  {
    if s != [] && Before(s[0], x) {
      InsertKeeps(x, s[1..]);
      HeadAndTail(s);
    }
  }

  /** Sorting puts the elements in order and keeps them all. */
  lemma {:induction false} SortedSorts(s: seq<OldPort>)
    ensures InOrder(Sorted(s)) && multiset(Sorted(s)) == multiset(s)
  {
    if s != [] {
      SortedSorts(s[1..]);
      InsertInOrder(s[0], Sorted(s[1..]));
      InsertKeeps(s[0], Sorted(s[1..]));
      HeadAndTail(s);
    }
  }

  lemma {:induction false} InOrderThroughout(s: seq<OldPort>, i: nat, j: nat)
    requires InOrder(s) && i < j < |s|
    ensures !Before(s[j], s[i])
  {
    if i == 0 {
      FirstIsLeast(s, j);
    } else {
      InOrderTail(s);
      InOrderThroughout(s[1..], i - 1, j - 1);
    }
  }

  /** Sorted by host IP; within one by protocol, then by host port, and then by container port. */
  lemma SortedByFields(s: seq<OldPort>, i: nat, j: nat)
    requires i < j < |s|
    ensures |Sorted(s)| == |s|
    ensures var p, q := Sorted(s)[i], Sorted(s)[j];
            && (p.hostIP != q.hostIP ==> LexLess(p.hostIP, q.hostIP))
            && (p.hostIP == q.hostIP && p.protocol != q.protocol ==> LexLess(p.protocol, q.protocol))
            && (p.hostIP == q.hostIP && p.protocol == q.protocol ==> p.hostPort <= q.hostPort)
            && (p.hostIP == q.hostIP && p.protocol == q.protocol && p.hostPort == q.hostPort ==>
                  p.containerPort <= q.containerPort)
  {
    SortedSorts(s);
    assert |multiset(Sorted(s))| == |multiset(s)|;
    var p, q := Sorted(s)[i], Sorted(s)[j];
    InOrderThroughout(Sorted(s), i, j);
    LexTotal(p.hostIP, q.hostIP);
    LexTotal(p.protocol, q.protocol);
  }

  lemma LeastIsFirst(s: seq<OldPort>, t: seq<OldPort>)
    requires InOrder(s) && multiset(s) == multiset(t) && t != []
    ensures s != [] && !Before(t[0], s[0])
  {
    HeadAndTail(t);
    assert t[0] in multiset(s);
    var j :| 0 <= j < |s| && s[j] == t[0];
    FirstIsLeast(s, j);
  }

  /** The order leaves no choice: however it is sorted, the result is the same. */
  lemma {:induction false} OneWayToSort(s: seq<OldPort>, t: seq<OldPort>)
    requires InOrder(s) && InOrder(t) && multiset(s) == multiset(t)
    ensures s == t
  {
    if s == [] {
      if t != [] { LeastIsFirst(s, t); }
    } else {
      LeastIsFirst(t, s);
      LeastIsFirst(s, t);
      BeforeTotal(s[0], t[0]);
      HeadAndTail(s);
      HeadAndTail(t);
      InOrderTail(s);
      InOrderTail(t);
      OneWayToSort(s[1..], t[1..]);
    }
  }

  /** Sorts in place. */
  method SortInPlace(a: array<OldPort>)
    modifies a
    ensures a[..] == Sorted(old(a[..]))
  {
    var sorted := Sorted(a[..]);
    SortedSorts(a[..]);
    assert |multiset(sorted)| == |multiset(a[..])|;
    for i := 0 to a.Length
      invariant |sorted| == a.Length && a[..i] == sorted[..i]
    {
      a[i] := sorted[i];
    }
    assert a[..a.Length] == a[..] && sorted[..a.Length] == sorted;
  }
}
