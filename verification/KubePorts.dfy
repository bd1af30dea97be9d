/** Port ranges, expanded to the container ports of a Kubernetes pod. */
module KubePorts {
  import opened Containers
  import opened PortSorting
  import opened PortRanges

  /** A container port. The protocol is empty for TCP, the default. */
  datatype ContainerPort = ContainerPort(hostIP: string, containerPort: int, hostPort: int, protocol: string)

  /** Splits at commas. */
  function Split(s: string): (parts: seq<string>)
    ensures |parts| > 0
  {
    if s == [] then [[]]
    else
      var rest := Split(s[1..]);
      if s[0] == ',' then [[]] + rest else [[s[0]] + rest[0]] + rest[1..]
  }

  /** Upper case, as far as the comparison with protocol names needs it: of all other characters, only the long s
      has an ASCII letter of these names as its upper case. */
  function Upper(c: char): char {
    if 'a' <= c <= 'z' then (c as int - 32) as char else if c == '\U{017F}' then 'S' else c
  }

  function ToUpper(s: string): string {
    seq(|s|, i requires 0 <= i < |s| => Upper(s[i]))
  }

  /** How Kubernetes writes a protocol, if it knows it. */
  function KubeProtocol(proto: string): Option<string> {
    var upper := ToUpper(proto);
    if upper == "TCP" then Some("")
    else if upper == "UDP" then Some("UDP")
    else if upper == "SCTP" then Some("SCTP")
    else None
  }

  /** One port with the protocol as Kubernetes writes it. A service does not fix host ports. */
  function KubePort(p: OldPort, protocol: string, getService: bool): ContainerPort {
    ContainerPort(p.hostIP, p.containerPort, if getService then 0 else p.hostPort, protocol)
  }

  function RangePorts(m: PortMapping, protocol: string, getService: bool, n: nat): seq<ContainerPort> {
    if n == 0 then []
    else RangePorts(m, protocol, getService, n - 1) + [KubePort(PortAt(m, n - 1), protocol, getService)]
  }

  /** The ports made so far, and whether an unknown protocol stopped the conversion. */
  datatype KubeResult = KubeResult(ports: seq<ContainerPort>, failed: bool)

  function ProtocolPorts(m: PortMapping, protocols: seq<string>, getService: bool): KubeResult
    requires m.range >= 0
  {
    if protocols == [] then KubeResult([], false)
    else
      var before := ProtocolPorts(m, protocols[..|protocols| - 1], getService);
      var protocol := KubeProtocol(protocols[|protocols| - 1]);
      if before.failed then before
      else if protocol.None? then KubeResult(before.ports, true)
      else KubeResult(before.ports + RangePorts(m, protocol.value, getService, m.range), false)
  }

  predicate NonNegative(ms: seq<PortMapping>) {
    forall k {:trigger ms[k]} :: 0 <= k < |ms| ==> ms[k].range >= 0
  }

  function MappingPorts(ms: seq<PortMapping>, getService: bool): KubeResult
    requires NonNegative(ms)
  {
    if ms == [] then KubeResult([], false)
    else
      var m := ms[|ms| - 1];
      var before := MappingPorts(ms[..|ms| - 1], getService);
      var r := ProtocolPorts(m, Split(m.protocol), getService);
      if before.failed then before else KubeResult(before.ports + r.ports, r.failed)
  }

  /** Every port of every range, once for every protocol; stops at a protocol that is not known, with the ports
      up to there. */
  method PortMappingToContainerPort(ms: seq<PortMapping>, getService: bool)
    returns (containerPorts: seq<ContainerPort>, failed: bool)
    requires NonNegative(ms)
    ensures KubeResult(containerPorts, failed) == MappingPorts(ms, getService)
  {
    containerPorts := [];
    for j := 0 to |ms|
      invariant MappingPorts(ms[..j], getService) == KubeResult(containerPorts, false)
    {
      assert ms[..j + 1][..j] == ms[..j];
      var ports, stopped := ExpandMapping(ms[j], getService);
      containerPorts := containerPorts + ports;
      if stopped {
        FailureIsFinal(ms, getService, j + 1);
        return containerPorts, true;
      }
    }
    assert ms[..|ms|] == ms;
    failed := false;
  }

  /** The ports of one range. */
  method ExpandMapping(p: PortMapping, getService: bool) returns (ports: seq<ContainerPort>, failed: bool)
    requires p.range >= 0
    ensures KubeResult(ports, failed) == ProtocolPorts(p, Split(p.protocol), getService)
  {
    var protocols := Split(p.protocol);
    ports := [];
    for k := 0 to |protocols|
      invariant ProtocolPorts(p, protocols[..k], getService) == KubeResult(ports, false)
    {
      assert protocols[..k + 1][..k] == protocols[..k];
      var protocol := KubeProtocol(protocols[k]);
      if protocol.None? {
        ProtocolFailureIsFinal(p, protocols, getService, k + 1);
        return ports, true;
      }
      var some := ExpandProtocol(p, protocol.value, getService);
      ports := ports + some;
    }
    assert protocols[..|protocols|] == protocols;
    failed := false;
  }

  /** The ports of one range for one protocol. */
  method ExpandProtocol(p: PortMapping, protocol: string, getService: bool) returns (ports: seq<ContainerPort>)
    requires p.range >= 0
    ensures ports == RangePorts(p, protocol, getService, p.range)
  {
    ports := [];
    for i := 0 to p.range
      invariant ports == RangePorts(p, protocol, getService, i)
    {
      var cp := ContainerPort(p.hostIP, Uint16(p.containerPort + i), 0, protocol);
      if !getService {
        cp := cp.(hostPort := Uint16(p.hostPort + i));
      }
      ports := ports + [cp];
    }
  }

  lemma {:induction false} ProtocolFailureIsFinal(m: PortMapping, protocols: seq<string>, getService: bool, n: nat)
    requires m.range >= 0 && n <= |protocols| && ProtocolPorts(m, protocols[..n], getService).failed
    ensures ProtocolPorts(m, protocols, getService) == ProtocolPorts(m, protocols[..n], getService)
    decreases |protocols|
  {
    if n == |protocols| {
      assert protocols[..n] == protocols;
    } else {
      assert protocols[..|protocols| - 1][..n] == protocols[..n];
      ProtocolFailureIsFinal(m, protocols[..|protocols| - 1], getService, n);
    }
  }

  lemma {:induction false} FailureIsFinal(ms: seq<PortMapping>, getService: bool, n: nat)
    requires NonNegative(ms) && n <= |ms| && MappingPorts(ms[..n], getService).failed
    ensures MappingPorts(ms, getService) == MappingPorts(ms[..n], getService)
    decreases |ms|
  {
    if n == |ms| {
      assert ms[..n] == ms;
    } else {
      assert ms[..|ms| - 1][..n] == ms[..n];
      FailureIsFinal(ms[..|ms| - 1], getService, n);
    }
  }

  // ---------------------------------------------------------------- compressed and expanded again

  /** A single protocol that Kubernetes knows. */
  predicate KnownProtocol(protocol: string) {
    ',' !in protocol && KubeProtocol(protocol).Some?
  }

  ghost predicate KnownProtocols(s: seq<OldPort>) {
    forall k {:trigger s[k]} :: 0 <= k < |s| ==> KnownProtocol(s[k].protocol)
  }

  /** The ports of the old list, one by one, as Kubernetes writes them. */
  function KubeList(s: seq<OldPort>, getService: bool): seq<ContainerPort> {
    if s == [] then []
    else
      var p := s[|s| - 1];
      KubeList(s[..|s| - 1], getService) + [KubePort(p, KubeProtocol(p.protocol).GetOr(""), getService)]
  }

  lemma {:induction false} KubeListConcat(s: seq<OldPort>, t: seq<OldPort>, getService: bool)
    ensures KubeList(s + t, getService) == KubeList(s, getService) + KubeList(t, getService)
  {
    if t == [] {
      assert s + t == s;
    } else {
      assert (s + t)[..|s + t| - 1] == s + t[..|t| - 1];
      KubeListConcat(s, t[..|t| - 1], getService);
    }
  }

  lemma {:induction false} SplitWithoutComma(s: string)
    requires ',' !in s
    ensures Split(s) == [s]
  {
    if s != [] {
      SplitWithoutComma(s[1..]);
      assert s[0] in s;
      assert s == [s[0]] + s[1..];
    }
  }

  lemma {:induction false} RangePortsAreListed(m: PortMapping, getService: bool, n: nat)
    requires KubeProtocol(m.protocol).Some?
    ensures RangePorts(m, KubeProtocol(m.protocol).value, getService, n) == KubeList(ExpandRange(m, n), getService)
  {
    if n > 0 {
      RangePortsAreListed(m, getService, n - 1);
      var s := ExpandRange(m, n);
      assert s[..|s| - 1] == ExpandRange(m, n - 1);
    }
  }

  lemma OneProtocol(m: PortMapping, getService: bool)
    requires KnownProtocol(m.protocol) && m.range >= 0
    ensures ProtocolPorts(m, Split(m.protocol), getService) == KubeResult(KubeList(ExpandRange(m, m.range), getService), false)
  {
    SplitWithoutComma(m.protocol);
    RangePortsAreListed(m, getService, m.range);
    var protocols := [m.protocol];
    assert protocols[..0] == [];
    var ports := RangePorts(m, KubeProtocol(m.protocol).value, getService, m.range);
    assert [] + ports == ports;
  }

  ghost predicate KnownMappings(ms: seq<PortMapping>) {
    forall k {:trigger ms[k]} :: 0 <= k < |ms| ==> KnownProtocol(ms[k].protocol)
  }

  lemma {:induction false} MappingsAreListed(ms: seq<PortMapping>, getService: bool)
    requires NonNegative(ms) && KnownMappings(ms)
    ensures MappingPorts(ms, getService) == KubeResult(KubeList(Expanded(ms), getService), false)
  {
    if ms != [] {
      var before, m := ms[..|ms| - 1], ms[|ms| - 1];
      MappingsAreListed(before, getService);
      OneProtocol(m, getService);
      KubeListConcat(Expanded(before), ExpandRange(m, m.range), getService);
    }
  }

  lemma {:induction false} CompressedIsKnown(s: seq<OldPort>)
    requires KnownProtocols(s)
    ensures KnownMappings(Compressed(s)) && NonNegative(Compressed(s))
  {
    if |s| > 1 {
      CompressedIsKnown(s[..|s| - 1]);
      SizeIsAtMost(s);
      var (done, current) := Folded(s[..|s| - 1]);
      assert Compressed(s[..|s| - 1]) == done + [current];
      assert (done + [current])[|done|] == current;
      forall k | 0 <= k < |done| ensures KnownProtocol(done[k].protocol) && done[k].range >= 0 {
        assert (done + [current])[k] == done[k];
      }
    }
  }

  /** `q` is `p` as Kubernetes writes it: TCP is left out as the default, and a service fixes no host port. */
  ghost predicate SamePort(p: OldPort, q: ContainerPort, getService: bool) {
    && q.hostIP == p.hostIP && q.containerPort == p.containerPort
    && q.hostPort == (if getService then 0 else p.hostPort)
    && q.protocol == (if ToUpper(p.protocol) == "TCP" then "" else ToUpper(p.protocol))
  }

  lemma {:induction false} KubeListAt(s: seq<OldPort>, getService: bool, k: nat)
    requires KnownProtocols(s) && k < |s|
    ensures |KubeList(s, getService)| == |s| && SamePort(s[k], KubeList(s, getService)[k], getService)
  {
    if |s| > 1 { KubeListAt(s[..|s| - 1], getService, if k < |s| - 1 then k else 0); }
  }

  /** A container's ports in the old format, converted to ranges and from there to container ports, are the same
      ports one by one. */
  lemma KubeRoundTrip(s: seq<OldPort>, getService: bool)
    requires KnownProtocols(s) && ValidPorts(s) && !HasFullRun(s)
    ensures NonNegative(Compressed(s))
    ensures var r := MappingPorts(Compressed(s), getService);
            && !r.failed && |r.ports| == |s|
            && forall k {:trigger s[k]} {:trigger r.ports[k]} :: 0 <= k < |s| ==> SamePort(s[k], r.ports[k], getService)
  {
    CompressedIsKnown(s);
    MappingsAreListed(Compressed(s), getService);
    NothingIsLost(s);
    forall k | 0 <= k < |s| ensures |KubeList(s, getService)| == |s| && SamePort(s[k], KubeList(s, getService)[k], getService) {
      KubeListAt(s, getService, k);
    }
  }

  /** Kubernetes knows three protocols, in upper or lower case. */
  lemma ProtocolNames(protocol: string)
    ensures KubeProtocol(protocol).Some? <==> ToUpper(protocol) in {"TCP", "UDP", "SCTP"}
    ensures protocol in {"tcp", "TCP"} ==> KubeProtocol(protocol) == Some("")
    ensures protocol in {"udp", "UDP"} ==> KubeProtocol(protocol) == Some("UDP")
    ensures protocol in {"sctp", "SCTP"} ==> KubeProtocol(protocol) == Some("SCTP")
  {
    assert ToUpper("tcp") == ToUpper("TCP") == "TCP";
    assert ToUpper("udp") == ToUpper("UDP") == "UDP";
    assert ToUpper("sctp") == ToUpper("SCTP") == "SCTP";
  }

  /** All protocols of the mapping are known. */
  ghost predicate AllKnown(protocols: seq<string>) {
    forall k {:trigger protocols[k]} :: 0 <= k < |protocols| ==> ToUpper(protocols[k]) in {"TCP", "UDP", "SCTP"}
  }

  lemma {:induction false} ProtocolsFailIff(m: PortMapping, protocols: seq<string>, getService: bool)
    requires m.range >= 0
    ensures ProtocolPorts(m, protocols, getService).failed <==> !AllKnown(protocols)
  {
    if protocols != [] {
      ProtocolsFailIff(m, protocols[..|protocols| - 1], getService);
      ProtocolNames(protocols[|protocols| - 1]);
    }
  }

  /** The conversion fails if and only if some mapping has a protocol that is not known. */
  lemma {:induction false} FailsIff(ms: seq<PortMapping>, getService: bool)
    requires NonNegative(ms)
    ensures MappingPorts(ms, getService).failed <==>
              exists k {:trigger ms[k]} :: 0 <= k < |ms| && !AllKnown(Split(ms[k].protocol))
  {
    if ms != [] {
      var m := ms[|ms| - 1];
      FailsIff(ms[..|ms| - 1], getService);
      ProtocolsFailIff(m, Split(m.protocol), getService);
    }
  }

  function Joined(parts: seq<string>): string
    requires parts != []
  {
    if |parts| == 1 then parts[0] else parts[0] + [','] + Joined(parts[1..])
  }

  /** The parts of a list are what its commas separate. */
  lemma {:induction false} SplitIsUndone(s: string)
    ensures Joined(Split(s)) == s
    ensures forall k {:trigger Split(s)[k]} :: 0 <= k < |Split(s)| ==> ',' !in Split(s)[k]
  {
    if s != [] {
      var rest := Split(s[1..]);
      SplitIsUndone(s[1..]);
      assert s == [s[0]] + s[1..];
    }
  }
}
