/** Port lists in the old format, compressed to ranges, and ranges expanded again. Port numbers of ranges and
    range lengths have 16 bits, old port numbers 32; all conversions wrap around. */
module PortRanges {
  import opened Containers
  import opened PortSorting

  const PORTS := 0x1_0000

  function Uint16(x: int): int {
    x % PORTS
  }

  function Int32(x: int): int {
    (x + 0x8000_0000) % 0x1_0000_0000 - 0x8000_0000
  }

  // ---------------------------------------------------------------- compression

  function Single(p: OldPort): PortMapping {
    PortMapping(p.hostIP, Uint16(p.containerPort), Uint16(p.hostPort), 1, p.protocol)
  }

  /** `p` comes right after the range `current`. */
  predicate Continues(current: PortMapping, p: OldPort) {
    && p.hostIP == current.hostIP && p.protocol == current.protocol
    && Int32(p.hostPort - current.range) == current.hostPort
    && Int32(p.containerPort - current.range) == current.containerPort
  }

  /** The ranges of a list: those that are done, and the last. */
  function Folded(s: seq<OldPort>): (seq<PortMapping>, PortMapping)
    requires s != []
  {
    if |s| == 1 then ([], Single(s[0]))
    else
      var (done, current) := Folded(s[..|s| - 1]);
      var p := s[|s| - 1];
      if Continues(current, p) then (done, current.(range := Uint16(current.range + 1)))
      else (done + [current], Single(p))
  }

  function Compressed(s: seq<OldPort>): seq<PortMapping> {
    if s == [] then [] else Folded(s).0 + [Folded(s).1]
  }

  /** Sorts the ports in place, and deduplicates them into ranges. */
  method OcicniPortsToNetTypesPorts(ports: array<OldPort>) returns (newPorts: seq<PortMapping>)
    modifies ports
    ensures ports[..] == Sorted(old(ports[..]))
    ensures newPorts == Compressed(Sorted(old(ports[..])))
  {
    SortInPlace(ports);
    ghost var s := Sorted(old(ports[..]));
    newPorts := [];
    if ports.Length == 0 {
      return;
    }
    var currentPort := Single(ports[0]);
    assert s[..1] == [s[0]];
    for i := 1 to ports.Length
      invariant Folded(s[..i]) == (newPorts, currentPort)
    {
      assert s[..i + 1][..i] == s[..i];
      if Continues(currentPort, ports[i]) {
        currentPort := currentPort.(range := Uint16(currentPort.range + 1));
      } else {
        newPorts := newPorts + [currentPort];
        currentPort := Single(ports[i]);
      }
    }
    assert s[..|s|] == s;
    newPorts := newPorts + [currentPort];
  }

  // ---------------------------------------------------------------- expansion

  /** The `i`-th port of a range. */
  function PortAt(m: PortMapping, i: nat): OldPort {
    OldPort(Uint16(m.hostPort + i), Uint16(m.containerPort + i), m.protocol, m.hostIP)
  }

  function ExpandRange(m: PortMapping, n: nat): seq<OldPort> {
    if n == 0 then [] else ExpandRange(m, n - 1) + [PortAt(m, n - 1)]
  }

  function Expanded(ms: seq<PortMapping>): seq<OldPort> {
    if ms == [] then []
    else
      var m := ms[|ms| - 1];
      Expanded(ms[..|ms| - 1]) + ExpandRange(m, if m.range >= 0 then m.range else 0)
  }

  lemma ExpandedAppend(ms: seq<PortMapping>, m: PortMapping)
    requires m.range >= 0
    ensures Expanded(ms + [m]) == Expanded(ms) + ExpandRange(m, m.range)
  {
    assert (ms + [m])[..|ms|] == ms;
  }

  lemma {:induction false} ExpandRangeAt(m: PortMapping, n: nat, i: nat)
    requires i < n
    ensures |ExpandRange(m, n)| == n && ExpandRange(m, n)[i] == PortAt(m, i)
  {
    if n > 1 { ExpandRangeAt(m, n - 1, if i < n - 1 then i else 0); }
  }

  lemma {:induction false} ExpandRangeLength(m: PortMapping, n: nat)
    ensures |ExpandRange(m, n)| == n
  {
    if n > 0 { ExpandRangeLength(m, n - 1); }
  }

  /** Expanding a range looks at its length only through the number of ports. */
  lemma {:induction false} ExpandRangeSame(m: PortMapping, k: PortMapping, n: nat)
    requires m == k.(range := m.range)
    ensures ExpandRange(m, n) == ExpandRange(k, n)
  {
    if n > 0 { ExpandRangeSame(m, k, n - 1); }
  }

  // ---------------------------------------------------------------- when expansion undoes compression

  predicate ValidPort(p: OldPort) {
    0 <= p.hostPort < PORTS && 0 <= p.containerPort < PORTS
  }

  ghost predicate ValidPorts(s: seq<OldPort>) {
    forall k {:trigger s[k]} :: 0 <= k < |s| ==> ValidPort(s[k])
  }

  /** Position `i + k` holds port `k`, mapped to itself, as part of the run that begins at `i`. */
  ghost predicate RunPort(s: seq<OldPort>, i: nat, k: nat) {
    i + k < |s| && s[i + k] == OldPort(k, k, s[i].protocol, s[i].hostIP)
  }

  /** All 65536 ports follow each other, each mapped to itself: a range as long as that does not fit. */
  ghost predicate FullRunAt(s: seq<OldPort>, i: nat) {
    forall k: nat {:trigger RunPort(s, i, k)} :: k < PORTS ==> RunPort(s, i, k)
  }

  ghost predicate HasFullRun(s: seq<OldPort>) {
    exists i: nat :: FullRunAt(s, i)
  }

  lemma PrefixKeeps(s: seq<OldPort>, n: nat)
    requires ValidPorts(s) && !HasFullRun(s) && n <= |s|
    ensures ValidPorts(s[..n]) && !HasFullRun(s[..n])
  {
    if i: nat :| FullRunAt(s[..n], i) {
      forall k: nat | k < PORTS ensures RunPort(s, i, k) { assert RunPort(s[..n], i, k); }
      assert FullRunAt(s, i);
    }
  }

  /** The last range is made of the last ports, and does not wrap around. */
  ghost predicate GoodRange(m: PortMapping) {
    && 1 <= m.range < PORTS && 0 <= m.hostPort && 0 <= m.containerPort
    && m.hostPort + m.range <= PORTS && m.containerPort + m.range <= PORTS
  }

  lemma SingleIsGood(p: OldPort)
    requires ValidPort(p)
    ensures GoodRange(Single(p)) && ExpandRange(Single(p), 1) == [p]
  {
    assert ExpandRange(Single(p), 1) == ExpandRange(Single(p), 0) + [PortAt(Single(p), 0)];
  }

  lemma ContinuesMeans(m: PortMapping, p: OldPort)
    requires GoodRange(m) && ValidPort(p)
    ensures Continues(m, p) <==>
              p == OldPort(m.hostPort + m.range, m.containerPort + m.range, m.protocol, m.hostIP)
  {
  }

  /** A range that would need all 65536 ports betrays a full run. */
  lemma FullRangeIsFullRun(s: seq<OldPort>, before: seq<OldPort>, m: PortMapping, p: OldPort)
    requires GoodRange(m) && ValidPort(p) && Continues(m, p) && m.range + 1 == PORTS
    requires s == before + ExpandRange(m, m.range) + [p]
    ensures HasFullRun(s)
  {
    ContinuesMeans(m, p);
    ExpandRangeLength(m, m.range);
    var i := |before|;
    forall k: nat | k < PORTS ensures RunPort(s, i, k) {
      ExpandRangeAt(m, m.range, 0);
      assert s[i] == ExpandRange(m, m.range)[0];
      if k < m.range {
        ExpandRangeAt(m, m.range, k);
        assert s[i + k] == ExpandRange(m, m.range)[k];
      }
    }
    assert FullRunAt(s, i);
  }

  lemma NextPort(m: PortMapping, p: OldPort)
    requires GoodRange(m) && ValidPort(p) && Continues(m, p) && m.range + 1 < PORTS
    ensures PortAt(m, m.range) == p && Uint16(m.range + 1) == m.range + 1
    ensures m.hostPort + m.range < PORTS && m.containerPort + m.range < PORTS
  {
    ContinuesMeans(m, p);
  }

  lemma {:induction false} LongerRange(m: PortMapping, n: nat)
    ensures ExpandRange(m.(range := n + 1), n + 1) == ExpandRange(m, n) + [PortAt(m, n)]
  {
    var longer := m.(range := n + 1);
    ExpandRangeSame(longer, m, n);
    assert PortAt(longer, n) == PortAt(m, n);
  }

  /** The ranges `done` and `current` stand for the ports `s`. */
  ghost predicate Spells(done: seq<PortMapping>, current: PortMapping, s: seq<OldPort>) {
    GoodRange(current) && Expanded(done) + ExpandRange(current, current.range) == s
  }

  /** One more port, whether it continues the last range or begins the next. */
  lemma SpellsOneMore(done: seq<PortMapping>, current: PortMapping, s: seq<OldPort>, p: OldPort)
    requires Spells(done, current, s) && ValidPort(p) && !HasFullRun(s + [p])
    ensures if Continues(current, p) then Spells(done, current.(range := Uint16(current.range + 1)), s + [p])
            else Spells(done + [current], Single(p), s + [p])
  {
    if Continues(current, p) {
      if current.range + 1 == PORTS { FullRangeIsFullRun(s + [p], Expanded(done), current, p); }
      NextPort(current, p);
      LongerRange(current, current.range);
    } else {
      ExpandedAppend(done, current);
      SingleIsGood(p);
    }
  }

  /** Without invalid ports and full runs, nothing is lost, and no arithmetic wraps around. */
  lemma {:induction false} FoldedSpells(s: seq<OldPort>)
    requires s != [] && ValidPorts(s) && !HasFullRun(s)
    ensures Spells(Folded(s).0, Folded(s).1, s)
  {
    if |s| == 1 {
      SingleIsGood(s[0]);
    } else {
      var t, p := s[..|s| - 1], s[|s| - 1];
      PrefixKeeps(s, |t|);
      FoldedSpells(t);
      assert s == t + [p];
      SpellsOneMore(Folded(t).0, Folded(t).1, t, p);
    }
  }

  lemma NothingIsLost(s: seq<OldPort>)
    requires ValidPorts(s) && !HasFullRun(s)
    ensures Expanded(Compressed(s)) == s
  {
    if s != [] {
      FoldedSpells(s);
      ExpandedAppend(Folded(s).0, Folded(s).1);
    }
  }

  // ---------------------------------------------------------------- and when it does not

  lemma {:induction false} ExpandedIsValid(ms: seq<PortMapping>, k: nat)
    requires k < |Expanded(ms)|
    ensures ValidPort(Expanded(ms)[k])
  {
    var m, before := ms[|ms| - 1], Expanded(ms[..|ms| - 1]);
    var n := if m.range >= 0 then m.range else 0;
    if k < |before| {
      ExpandedIsValid(ms[..|ms| - 1], k);
    } else {
      ExpandRangeLength(m, n);
      ExpandRangeAt(m, n, k - |before|);
    }
  }

  /** How many ports the ranges of a list stand for. */
  ghost function Size(s: seq<OldPort>): int
    requires s != []
  {
    |Expanded(Folded(s).0)| + Folded(s).1.range
  }

  lemma SizeIsExpandedLength(s: seq<OldPort>)
    requires s != [] && Folded(s).1.range >= 0
    ensures |Expanded(Compressed(s))| == Size(s)
  {
    ExpandedAppend(Folded(s).0, Folded(s).1);
    ExpandRangeLength(Folded(s).1, Folded(s).1.range);
  }

  /** One more port adds at most one; a length that wraps around to 0 loses ports. */
  lemma SizeOneMore(t: seq<OldPort>, p: OldPort)
    requires t != [] && 0 <= Folded(t).1.range < PORTS
    ensures 0 <= Folded(t + [p]).1.range < PORTS && Size(t + [p]) <= Size(t) + 1
    ensures Folded(t + [p]).1.range == 0 ==> Size(t + [p]) < Size(t) + 1
  {
    assert (t + [p])[..|t|] == t;
    var (done, current) := Folded(t);
    if !Continues(current, p) {
      ExpandedAppend(done, current);
      ExpandRangeLength(current, current.range);
    }
  }

  /** Never more than there are, and fewer once a length has wrapped around. */
  lemma {:induction false} SizeIsAtMost(s: seq<OldPort>)
    requires s != []
    ensures 0 <= Folded(s).1.range < PORTS && Size(s) <= |s| && (Folded(s).1.range == 0 ==> Size(s) < |s|)
  {
    if |s| > 1 {
      var t, p := s[..|s| - 1], s[|s| - 1];
      SizeIsAtMost(t);
      assert s == t + [p];
      SizeOneMore(t, p);
    }
  }

  lemma LossOneMore(t: seq<OldPort>, p: OldPort)
    requires t != [] && Size(t) < |t|
    ensures Size(t + [p]) < |t + [p]|
  {
    SizeIsAtMost(t);
    SizeOneMore(t, p);
  }

  /** Some ports of the first `n` are lost. */
  ghost predicate Loses(s: seq<OldPort>, n: nat) {
    0 < n <= |s| && Size(s[..n]) < n
  }

  lemma LosesNext(s: seq<OldPort>, n: nat)
    requires Loses(s, n) && n < |s|
    ensures Loses(s, n + 1)
  {
    LossOneMore(s[..n], s[n]);
    assert s[..n + 1] == s[..n] + [s[n]];
  }

  lemma {:induction false} LossIsFinal(s: seq<OldPort>, n: nat, m: nat)
    requires Loses(s, n) && n <= m <= |s|
    ensures Loses(s, m)
    decreases m
  {
    if n < m {
      LossIsFinal(s, n, m - 1);
      LosesNext(s, m - 1);
    }
  }

  /** A range that starts with port 0 and is `n` long. */
  ghost predicate FromZero(m: PortMapping, p: OldPort, n: nat) {
    m == PortMapping(p.hostIP, 0, 0, n, p.protocol)
  }

  lemma RunBegins(s: seq<OldPort>, i: nat)
    requires RunPort(s, i, 0)
    ensures Loses(s, i + 1) || FromZero(Folded(s[..i + 1]).1, s[i], 1)
  {
    assert s[..i + 1] == s[..i] + [s[i]];
    if i > 0 {
      SizeIsAtMost(s[..i]);
      SizeOneMore(s[..i], s[i]);
      FoldedPortsAreUint16(s[..i]);
      assert s[..i + 1][..i] == s[..i];
    }
  }

  lemma {:induction false} FoldedPortsAreUint16(s: seq<OldPort>)
    requires s != []
    ensures 0 <= Folded(s).1.hostPort < PORTS && 0 <= Folded(s).1.containerPort < PORTS
  {
    if |s| > 1 { FoldedPortsAreUint16(s[..|s| - 1]); }
  }

  lemma RunGoesOn(s: seq<OldPort>, i: nat, k: nat)
    requires RunPort(s, i, k + 1) && k + 1 < PORTS && FromZero(Folded(s[..i + k + 1]).1, s[i], k + 1)
    ensures FromZero(Folded(s[..i + k + 2]).1, s[i], Uint16(k + 2))
  {
    assert s[..i + k + 2][..i + k + 1] == s[..i + k + 1];
    assert s[..i + k + 2][i + k + 1] == s[i + k + 1];
  }

  lemma {:induction false} RunLoses(s: seq<OldPort>, i: nat, k: nat)
    requires FullRunAt(s, i) && k < PORTS
    ensures i + k < |s| && (Loses(s, i + k + 1) || FromZero(Folded(s[..i + k + 1]).1, s[i], Uint16(k + 1)))
  {
    assert RunPort(s, i, k);
    if k == 0 {
      RunBegins(s, i);
    } else {
      RunLoses(s, i, k - 1);
      if Loses(s, i + k) {
        LosesNext(s, i + k);
      } else {
        RunGoesOn(s, i, k - 1);
      }
    }
  }

  lemma FullRunLoses(s: seq<OldPort>)
    requires HasFullRun(s)
    ensures s != [] && Size(s) < |s|
  {
    var i: nat :| FullRunAt(s, i);
    RunLoses(s, i, PORTS - 1);
    SizeIsAtMost(s[..i + PORTS]);
    LossIsFinal(s, i + PORTS, |s|);
    assert s[..|s|] == s;
  }

  /** Expanding the ranges gives back exactly the list, duplicates and all, if and only if all ports have 16
      bits and the list holds no run of all 65536 ports. */
  lemma RoundTripIff(s: seq<OldPort>)
    ensures Expanded(Compressed(s)) == s <==> ValidPorts(s) && !HasFullRun(s)
  {
    if Expanded(Compressed(s)) == s {
      forall k | 0 <= k < |s| ensures ValidPort(s[k]) { ExpandedIsValid(Compressed(s), k); }
      if HasFullRun(s) {
        FullRunLoses(s);
        SizeIsAtMost(s);
        SizeIsExpandedLength(s);
      }
    } else if ValidPorts(s) && !HasFullRun(s) {
      NothingIsLost(s);
    }
  }

  /** In particular for all lists of ports from 1 to 65535, in whatever order. */
  lemma RoundTripForPositivePorts(s: seq<OldPort>)
    requires forall k {:trigger s[k]} :: 0 <= k < |s| ==> 1 <= s[k].hostPort < PORTS && 1 <= s[k].containerPort < PORTS
    ensures Expanded(Compressed(s)) == s
  {
    forall i: nat ensures !FullRunAt(s, i) { assert !RunPort(s, i, 0); }
    RoundTripIff(s);
  }

  // ---------------------------------------------------------------- ranges are as long as can be

  /** The second range continues the first. */
  ghost predicate Mergeable(a: PortMapping, b: PortMapping) {
    && a.hostIP == b.hostIP && a.protocol == b.protocol
    && b.hostPort == a.hostPort + a.range && b.containerPort == a.containerPort + a.range
  }

  ghost predicate NoneMergeable(ms: seq<PortMapping>) {
    forall k {:trigger ms[k]} :: 0 < k < |ms| ==> !Mergeable(ms[k - 1], ms[k])
  }

  /** A range that continues nothing, no longer either. */
  lemma NotMergeable(current: PortMapping, p: OldPort)
    requires GoodRange(current) && ValidPort(p) && !Continues(current, p)
    ensures !Mergeable(current, Single(p))
  {
    ContinuesMeans(current, p);
  }

  /** No two consecutive ranges could be one. */
  lemma {:induction false} RangesAreMaximal(s: seq<OldPort>)
    requires ValidPorts(s) && !HasFullRun(s)
    ensures NoneMergeable(Compressed(s))
  {
    if |s| > 1 {
      var t, p := s[..|s| - 1], s[|s| - 1];
      PrefixKeeps(s, |t|);
      FoldedSpells(t);
      RangesAreMaximal(t);
      var (done, current) := Folded(t);
      var before, after := done + [current], Compressed(s);
      if !Continues(current, p) { NotMergeable(current, p); }
      forall k | 0 < k < |after| ensures !Mergeable(after[k - 1], after[k]) {
        if k < |before| { assert !Mergeable(before[k - 1], before[k]); }
      }
    }
  }

  /** No range wraps around. */
  lemma {:induction false} RangesAreGood(s: seq<OldPort>, k: nat)
    requires ValidPorts(s) && !HasFullRun(s) && k < |Compressed(s)|
    ensures GoodRange(Compressed(s)[k])
  {
    FoldedSpells(s);
    if |s| > 1 && k < |Folded(s).0| {
      PrefixKeeps(s, |s| - 1);
      RangesAreGood(s[..|s| - 1], k);
    }
  }

  /** The host ports of a range and the container ports run in parallel. */
  ghost predicate RangeHolds(m: PortMapping, n: int, p: OldPort) {
    && m.hostIP == p.hostIP && m.protocol == p.protocol
    && m.hostPort <= p.hostPort < m.hostPort + n
    && p.containerPort - m.containerPort == p.hostPort - m.hostPort
  }

  lemma {:induction false} ExpandRangeHolds(m: PortMapping, n: nat, p: OldPort)
    requires GoodRange(m) && n <= m.range
    ensures p in ExpandRange(m, n) <==> RangeHolds(m, n, p)
  {
    if n > 0 { ExpandRangeHolds(m, n - 1, p); }
  }

  lemma {:induction false} ExpandedHolds(ms: seq<PortMapping>, p: OldPort)
    requires forall k {:trigger ms[k]} :: 0 <= k < |ms| ==> GoodRange(ms[k])
    ensures p in Expanded(ms) <==> exists k {:trigger ms[k]} :: 0 <= k < |ms| && RangeHolds(ms[k], ms[k].range, p)
  {
    if ms != [] {
      var before, m := ms[..|ms| - 1], ms[|ms| - 1];
      ExpandedHolds(before, p);
      ExpandRangeHolds(m, m.range, p);
      if k :| 0 <= k < |before| && RangeHolds(before[k], before[k].range, p) { assert ms[k] == before[k]; }
      if k :| 0 <= k < |ms| && RangeHolds(ms[k], ms[k].range, p) { assert k < |before| ==> before[k] == ms[k]; }
    }
  }

  /** A port is listed if and only if it is in one of the ranges. */
  lemma RangesHoldPorts(s: seq<OldPort>, p: OldPort)
    requires ValidPorts(s) && !HasFullRun(s)
    ensures p in s <==> exists k {:trigger Compressed(s)[k]} ::
                          0 <= k < |Compressed(s)| && RangeHolds(Compressed(s)[k], Compressed(s)[k].range, p)
  {
    var ms := Compressed(s);
    forall k | 0 <= k < |ms| ensures GoodRange(ms[k]) { RangesAreGood(s, k); }
    NothingIsLost(s);
    ExpandedHolds(ms, p);
  }

  /** All 65536 ports, each mapped to itself. */
  function AllPorts(protocol: string, hostIP: string): seq<OldPort> {
    seq(PORTS, (k: nat) => OldPort(k, k, protocol, hostIP))
  }

  lemma {:induction false} AllPortsFold(protocol: string, hostIP: string, k: nat)
    requires k < PORTS
    ensures Folded(AllPorts(protocol, hostIP)[..k + 1]) == ([], PortMapping(hostIP, 0, 0, Uint16(k + 1), protocol))
  {
    var s := AllPorts(protocol, hostIP);
    if k > 0 {
      AllPortsFold(protocol, hostIP, k - 1);
      assert s[..k + 1][..k] == s[..k] && s[..k + 1][k] == s[k];
    }
  }

  lemma AllPortsInOrder(protocol: string, hostIP: string)
    ensures InOrder(AllPorts(protocol, hostIP))
  {
    var s := AllPorts(protocol, hostIP);
    forall k | 0 < k < |s| ensures !Before(s[k], s[k - 1]) {
      assert s[k] == OldPort(k, k, protocol, hostIP) && s[k - 1] == OldPort(k - 1, k - 1, protocol, hostIP);
    }
  }

  /** They are in order, and make one range whose length wraps around to 0: all of them are lost. */
  lemma AllPortsAreLost(protocol: string, hostIP: string)
    ensures InOrder(AllPorts(protocol, hostIP))
    ensures Compressed(AllPorts(protocol, hostIP)) == [PortMapping(hostIP, 0, 0, 0, protocol)]
    ensures Expanded(Compressed(AllPorts(protocol, hostIP))) == []
  {
    var s := AllPorts(protocol, hostIP);
    AllPortsInOrder(protocol, hostIP);
    AllPortsFold(protocol, hostIP, PORTS - 1);
    assert s[..PORTS] == s;
    var m := PortMapping(hostIP, 0, 0, 0, protocol);
    assert [] + [m] == [m] && [m][..0] == [];
  }
}
