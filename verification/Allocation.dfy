/** UDP ports and host interface names of a realized topology
    (`topology/local/{container,domains,dynamips,shitnet}.go`, `bridge/link.go`). */
module Allocation {
  import opened Numerals
  import opened Topologies

  // ------------------------------------------------------------ support

  const DEFAULT_BASE_PORT := 23000

  /** Which host resources the caller supplied. `containers` holds the provider
      names that resolve. */
  datatype HostOptions = HostOptions(
    basePort: int, containers: set<string>, domains: bool, dynamips: bool, shitnet: bool)

  function BasePort(options: HostOptions): int {
    if options.basePort == 0 then DEFAULT_BASE_PORT else options.basePort
  }

  /** A character no interface name contains. */
  ghost predicate Separates(c: char) {
    c == '/' || c == ':' || c == '\0' || c == ' ' || c == '\t' || c == '\r' || c == '\n'
  }

  /** A name that Linux accepts for an interface, other than the loopback's. */
  ghost predicate IsInterfaceName(name: string) {
    && |name| < 16 && name !in {".", "..", "lo"}
    && forall i :: 0 <= i < |name| ==> !Separates(name[i])
  }

  ghost predicate PortSupported(spec: Spec, port: Port) {
    port.kind == "ethernet" && (spec.Container? ==> IsInterfaceName(port.id))
  }

  ghost predicate NodeSupported(node: Node, options: HostOptions) {
    && !node.spec.Unsupported?
    && (node.spec.Container? ==> node.spec.provider in options.containers)
    && (node.spec.Dynamips? ==> options.dynamips)
    && (node.spec.Domain? ==> options.domains)
    && (node.spec.Shitnet? ==> options.shitnet && |node.ports| == 1)
    && (forall i :: 0 <= i < |node.ports| ==> PortSupported(node.spec, node.ports[i]))
  }

  /** Ethernet, with the default MTU or one that IPv4 can use. */
  ghost predicate LinkSupported(link: Link) {
    link.kind == "ethernet" && !(1 <= link.mtu <= 67)
  }

  /** Two ports per link from `base` on, none above 65535. */
  ghost predicate PortRangeFits(links: nat, base: int) {
    1 <= base <= 65535 && base + 2 * links <= 65536
  }

  ghost predicate Supported(t: Topology, options: HostOptions) {
    && PortRangeFits(|t.links|, if options.basePort == 0 then 23000 else options.basePort)
    && (forall i :: 0 <= i < |t.nodes| ==> NodeSupported(t.nodes[i], options))
    && (forall i :: 0 <= i < |t.links| ==> LinkSupported(t.links[i]))
  }

  /** `validateSupport`. */
  method ValidateSupport(t: Topology, options: HostOptions) returns (ok: bool)
    ensures ok <==> Supported(t, options)
  {
    var base := BasePort(options);
    if base < 1 || base > 65535 || |t.links| > (65536 - base) / 2 {
      return false;
    }
    for i := 0 to |t.nodes|
      invariant forall j :: 0 <= j < i ==> NodeSupported(t.nodes[j], options)
    {
      ok := CheckNode(t.nodes[i], options);
      if !ok {
        return;
      }
    }
    for i := 0 to |t.links|
      invariant forall j :: 0 <= j < i ==> LinkSupported(t.links[j])
    {
      if t.links[i].kind != ETHERNET || (t.links[i].mtu != 0 && t.links[i].mtu < 68) {
        return false;
      }
    }
    ok := true;
  }

  /** The workload of a node, then its ports. */
  method CheckNode(node: Node, options: HostOptions) returns (ok: bool)
    ensures ok <==> NodeSupported(node, options)
  {
    match node.spec {
      case Container(provider, _, _) => ok := provider in options.containers;
      case Dynamips(_, _) => ok := options.dynamips;
      case Domain(_) => ok := options.domains;
      case Shitnet(_, _) => ok := options.shitnet && |node.ports| == 1;
      case Unsupported => ok := false;
    }
    if !ok {
      return;
    }
    for i := 0 to |node.ports|
      invariant forall j :: 0 <= j < i ==> PortSupported(node.spec, node.ports[j])
    {
      if node.ports[i].kind != ETHERNET {
        return false;
      }
      if node.spec.Container? {
        ok := CheckName(node.ports[i].id);
        if !ok {
          return;
        }
      }
    }
    ok := true;
  }

  method CheckName(name: string) returns (ok: bool)
    ensures ok <==> IsInterfaceName(name)
  {
    if |name| > 15 || name == "." || name == ".." || name == "lo" {
      return false;
    }
    for i := 0 to |name|
      invariant forall j :: 0 <= j < i ==> !Separates(name[j])
    {
      if name[i] in "/:\0 \t\r\n" {
        return false;
      }
    }
    ok := true;
  }

  // ------------------------------------------------------------ UDP ports

  /** A UDP listener for link end `end`. */
  datatype Binding = Binding(end: nat, local: int, remote: int)

  /** The port pair every realizer computes for side `k % 2` of link `k / 2`. */
  function BindingOf(base: int, k: nat): Binding {
    Binding(k, base + 2 * (k / 2) + k % 2, base + 2 * (k / 2) + 1 - k % 2)
  }

  function OtherEnd(k: nat): nat {
    if k % 2 == 0 then k + 1 else k - 1
  }

  function Bindings(base: int, ends: seq<nat>): (r: seq<Binding>)
    ensures |r| == |ends|
  {
    seq(|ends|, i requires 0 <= i < |ends| => BindingOf(base, ends[i]))
  }

  lemma BindingsAppend(base: int, a: seq<nat>, b: seq<nat>)
    ensures Bindings(base, a + b) == Bindings(base, a) + Bindings(base, b)
  {
  }

  /** The endpoints of all link ends, in order. */
  ghost function Endpoints(links: seq<Link>): (r: seq<Endpoint>)
    ensures |r| == 2 * |links|
  {
    seq(2 * |links|, k requires 0 <= k < 2 * |links| => EndAt(links, k))
  }

  /** The positions in `ends` that satisfy `p`, ascending. */
  ghost function Where(ends: seq<Endpoint>, p: Endpoint -> bool): seq<nat> {
    if ends == [] then []
    else
      var n := |ends| - 1;
      Where(ends[..n], p) + if p(ends[n]) then [n] else []
  }

  lemma WhereNext(ends: seq<Endpoint>, p: Endpoint -> bool, k: nat)
    requires k < |ends|
    ensures Where(ends[..k + 1], p) == Where(ends[..k], p) + if p(ends[k]) then [k] else []
  {
    assert ends[..k + 1][..k] == ends[..k];
  }

  /** The listeners for the matching ends below `k`, and for one more. */
  ghost function BoundBelow(base: int, ends: seq<Endpoint>, p: Endpoint -> bool, k: nat): seq<Binding>
    requires k <= |ends|
  {
    Bindings(base, Where(ends[..k], p))
  }

  lemma BoundBelowNext(base: int, ends: seq<Endpoint>, p: Endpoint -> bool, k: nat)
    requires k < |ends|
    ensures BoundBelow(base, ends, p, 0) == []
    ensures BoundBelow(base, ends, p, k + 1) ==
            BoundBelow(base, ends, p, k) + if p(ends[k]) then [BindingOf(base, k)] else []
    ensures BoundBelow(base, ends, p, |ends|) == Bindings(base, Where(ends, p))
  {
    WhereNext(ends, p, k);
    if p(ends[k]) {
      BindingsAppend(base, Where(ends[..k], p), [k]);
      assert Bindings(base, [k]) == [BindingOf(base, k)];
    }
    assert ends[..|ends|] == ends;
  }

  ghost function AtPort(e: Endpoint): Endpoint -> bool {
    (x: Endpoint) => x == e
  }

  ghost function OnNode(node: string): Endpoint -> bool {
    (x: Endpoint) => x.node == node
  }

  /** The ends of a domain, port by port (`startDomain`). */
  ghost function DomainEnds(ends: seq<Endpoint>, node: string, ports: seq<Port>): seq<nat> {
    if ports == [] then []
    else
      var n := |ports| - 1;
      DomainEnds(ends, node, ports[..n]) + Where(ends, AtPort(Endpoint(node, ports[n].id)))
  }

  /** The ends that the realizer of one node binds: a domain goes port by port, a
      router takes all ends on its node (`startRouter`), an endpoint only the
      first one it finds (`startEndpoint`). */
  ghost function RealizedEnds(ends: seq<Endpoint>, node: Node): seq<nat> {
    match node.spec
    case Domain(_) => DomainEnds(ends, node.id, node.ports)
    case Dynamips(_, _) => Where(ends, OnNode(node.id))
    case Shitnet(_, _) =>
      var all := Where(ends, OnNode(node.id));
      if all == [] then [] else all[..1]
    case _ => []
  }

  /** The ends bound while the first nodes start, node by node. */
  ghost function StartedEnds(ends: seq<Endpoint>, nodes: seq<Node>): seq<nat> {
    if nodes == [] then []
    else StartedEnds(ends, nodes[..|nodes| - 1]) + RealizedEnds(ends, nodes[|nodes| - 1])
  }

  /** Some node with this ID is started by its own realizer. */
  ghost predicate HasRealizer(nodes: seq<Node>, id: string) {
    nodes != [] && var n := |nodes| - 1;
                   ((nodes[n].id == id && !nodes[n].spec.Container?) || HasRealizer(nodes[..n], id))
  }

  ghost function LeftToBridges(nodes: seq<Node>): Endpoint -> bool {
    (x: Endpoint) => !HasRealizer(nodes, x.node)
  }

  /** All ends in the order in which a successful start binds them: each node's
      realizer, then the container bridges. */
  ghost function AllEnds(t: Topology): seq<nat> {
    StartedEnds(Endpoints(t.links), t.nodes) + Where(Endpoints(t.links), LeftToBridges(t.nodes))
  }

  ghost function One(b: bool): nat {
    if b then 1 else 0
  }

  lemma {:induction false} CountWhere(ends: seq<Endpoint>, p: Endpoint -> bool, j: nat)
    ensures multiset(Where(ends, p))[j] == One(j < |ends| && p(ends[j]))
    decreases |ends|
  {
    if ends != [] {
      CountWhere(ends[..|ends| - 1], p, j);
    }
  }

  ghost predicate PortListed(ports: seq<Port>, id: string) {
    ports != [] && (ports[|ports| - 1].id == id || PortListed(ports[..|ports| - 1], id))
  }

  lemma {:induction false} PortListedAt(ports: seq<Port>, id: string)
    ensures PortListed(ports, id) <==> exists i :: 0 <= i < |ports| && ports[i].id == id
    decreases |ports|
  {
    if ports != [] {
      var front := ports[..|ports| - 1];
      PortListedAt(front, id);
      assert forall i :: 0 <= i < |front| ==> front[i] == ports[i];
    }
  }

  /** The domain realizer binds an end once when it sits on one of its ports. */
  lemma {:induction false} CountDomainEnds(ends: seq<Endpoint>, node: string, ports: seq<Port>, j: nat)
    requires PortsValid(ports)
    ensures multiset(DomainEnds(ends, node, ports))[j] ==
            One(j < |ends| && ends[j].node == node && PortListed(ports, ends[j].port))
    decreases |ports|
  {
    if ports != [] {
      var n := |ports| - 1;
      CountDomainEnds(ends, node, ports[..n], j);
      CountWhere(ends, AtPort(Endpoint(node, ports[n].id)), j);
      if j < |ends| && ends[j] == Endpoint(node, ports[n].id) {
        PortListedAt(ports[..n], ports[n].id);
      }
    }
  }

  /** A validated link end sits on a port of the node that carries its ID. */
  lemma EndSitsOnPort(t: Topology, k: nat, n: nat)
    requires ValidTopology(t) && k < 2 * |t.links| && n < |t.nodes| && EndAt(t.links, k).node == t.nodes[n].id
    ensures PortListed(t.nodes[n].ports, EndAt(t.links, k).port)
  {
    var link, e := t.links[k / 2], EndAt(t.links, k);
    assert LinkValid(t.nodes, link);
    var i, j :| 0 <= i < |t.nodes| && 0 <= j < |t.nodes[i].ports| && t.nodes[i].id == e.node
                && t.nodes[i].ports[j] == Port(e.port, link.kind);
    assert i == n;
    PortListedAt(t.nodes[n].ports, e.port);
  }

  /** Two ends on a node with a single port are the same end. */
  lemma SinglePortNode(t: Topology, n: nat, j: nat, k: nat)
    requires ValidTopology(t) && n < |t.nodes| && |t.nodes[n].ports| == 1
    requires j < k < 2 * |t.links|
    ensures !(EndAt(t.links, j).node == EndAt(t.links, k).node == t.nodes[n].id)
  {
    if EndAt(t.links, j).node == EndAt(t.links, k).node == t.nodes[n].id {
      EndOnOnlyPort(t, j, n);
      EndOnOnlyPort(t, k, n);
    }
  }

  lemma EndOnOnlyPort(t: Topology, k: nat, n: nat)
    requires ValidTopology(t) && k < 2 * |t.links| && n < |t.nodes| && EndAt(t.links, k).node == t.nodes[n].id
    requires |t.nodes[n].ports| == 1
    ensures EndAt(t.links, k) == Endpoint(t.nodes[n].id, t.nodes[n].ports[0].id)
  {
    EndSitsOnPort(t, k, n);
    PortListedAt(t.nodes[n].ports, EndAt(t.links, k).port);
  }

  /** A position found twice, or two positions found, need two matches. */
  lemma {:induction false} AtMostOneFound(ends: seq<Endpoint>, p: Endpoint -> bool)
    requires forall j, k :: 0 <= j < k < |ends| ==> !(p(ends[j]) && p(ends[k]))
    ensures |Where(ends, p)| <= 1
    decreases |ends|
  {
    if ends != [] {
      var n := |ends| - 1;
      AtMostOneFound(ends[..n], p);
      if p(ends[n]) && Where(ends[..n], p) != [] {
        var j := Where(ends[..n], p)[0];
        assert j in multiset(Where(ends[..n], p));
        CountWhere(ends[..n], p, j);
      }
    }
  }

  /** The realizer of a node binds each end on that node exactly once. */
  lemma CountRealizedEnds(t: Topology, options: HostOptions, n: nat, j: nat)
    requires ValidTopology(t) && Supported(t, options) && n < |t.nodes|
    ensures multiset(RealizedEnds(Endpoints(t.links), t.nodes[n]))[j] ==
            One(j < 2 * |t.links| && EndAt(t.links, j).node == t.nodes[n].id && !t.nodes[n].spec.Container?)
  {
    var node, ends := t.nodes[n], Endpoints(t.links);
    assert NodeSupported(node, options);
    CountWhere(ends, OnNode(node.id), j);
    if node.spec.Domain? {
      CountDomainEnds(ends, node.id, node.ports, j);
      if j < 2 * |t.links| && EndAt(t.links, j).node == node.id {
        EndSitsOnPort(t, j, n);
      }
    } else if node.spec.Shitnet? {
      OneEndOnSinglePortNode(t, n);
    }
  }

  lemma OneEndOnSinglePortNode(t: Topology, n: nat)
    requires ValidTopology(t) && n < |t.nodes| && |t.nodes[n].ports| == 1
    ensures |Where(Endpoints(t.links), OnNode(t.nodes[n].id))| <= 1
  {
    var ends, p := Endpoints(t.links), OnNode(t.nodes[n].id);
    forall i, k | 0 <= i < k < |ends| ensures !(p(ends[i]) && p(ends[k])) {
      SinglePortNode(t, n, i, k);
    }
    AtMostOneFound(ends, p);
  }

  lemma {:induction false} HasRealizerAt(nodes: seq<Node>, id: string)
    ensures HasRealizer(nodes, id) <==> exists i :: 0 <= i < |nodes| && nodes[i].id == id && !nodes[i].spec.Container?
    decreases |nodes|
  {
    if nodes != [] {
      var front := nodes[..|nodes| - 1];
      HasRealizerAt(front, id);
      assert forall i :: 0 <= i < |front| ==> front[i] == nodes[i];
    }
  }

  lemma StartedNext(ends: seq<Endpoint>, nodes: seq<Node>, m: nat, j: nat)
    requires m < |nodes|
    ensures multiset(StartedEnds(ends, nodes[..m + 1]))[j] ==
            multiset(StartedEnds(ends, nodes[..m]))[j] + multiset(RealizedEnds(ends, nodes[m]))[j]
  {
    var longer := nodes[..m + 1];
    assert longer[..m] == nodes[..m] && longer[m] == nodes[m];
    assert StartedEnds(ends, longer) == StartedEnds(ends, longer[..m]) + RealizedEnds(ends, longer[m]);
  }

  lemma EarlierNodesDiffer(nodes: seq<Node>, m: nat)
    requires m < |nodes| && forall i, k :: 0 <= i < k < |nodes| ==> nodes[i].id != nodes[k].id
    ensures !HasRealizer(nodes[..m], nodes[m].id)
  {
    HasRealizerAt(nodes[..m], nodes[m].id);
  }

  lemma RealizerNext(nodes: seq<Node>, m: nat, id: string)
    requires m < |nodes|
    ensures HasRealizer(nodes[..m + 1], id) <==>
            (nodes[m].id == id && !nodes[m].spec.Container?) || HasRealizer(nodes[..m], id)
  {
    var longer := nodes[..m + 1];
    assert longer[..m] == nodes[..m] && longer[m] == nodes[m];
  }

  /** The realizer of `node` binds end `j` once if the end is on the node. */
  ghost predicate RealizedOnce(ends: seq<Endpoint>, node: Node, j: nat) {
    multiset(RealizedEnds(ends, node))[j] == One(j < |ends| && ends[j].node == node.id && !node.spec.Container?)
  }

  lemma {:induction false} CountStartedEnds(ends: seq<Endpoint>, nodes: seq<Node>, m: nat, j: nat)
    requires m <= |nodes| && forall i, k :: 0 <= i < k < |nodes| ==> nodes[i].id != nodes[k].id
    requires forall n :: 0 <= n < |nodes| ==> RealizedOnce(ends, nodes[n], j)
    ensures multiset(StartedEnds(ends, nodes[..m]))[j] == One(j < |ends| && HasRealizer(nodes[..m], ends[j].node))
    decreases m
  {
    if m > 0 {
      CountStartedEnds(ends, nodes, m - 1, j);
      StartedNext(ends, nodes, m - 1, j);
      assert RealizedOnce(ends, nodes[m - 1], j);
      if j < |ends| {
        RealizerNext(nodes, m - 1, ends[j].node);
        EarlierNodesDiffer(nodes, m - 1);
      }
    }
  }

  /** Across the four realizers, every link end is bound exactly once. */
  lemma EveryEndOnce(t: Topology, options: HostOptions, j: nat)
    requires ValidTopology(t) && Supported(t, options)
    ensures multiset(AllEnds(t))[j] == One(j < 2 * |t.links|)
  {
    forall n | 0 <= n < |t.nodes| ensures RealizedOnce(Endpoints(t.links), t.nodes[n], j) {
      CountRealizedEnds(t, options, n, j);
    }
    CountStartedEnds(Endpoints(t.links), t.nodes, |t.nodes|, j);
    CountWhere(Endpoints(t.links), LeftToBridges(t.nodes), j);
    assert t.nodes[..|t.nodes|] == t.nodes;
  }

  /** What a successful start promises about its listeners: each link end has
      exactly one, its remote is the local port of the other end, and the local
      ports are distinct and within 1..65535. */
  ghost predicate WellBound(t: Topology, base: int, bound: seq<Binding>) {
    && (forall k: nat :: multiset(bound)[BindingOf(base, k)] == One(k < 2 * |t.links|))
    && (forall b :: b in bound ==> BoundRight(t, base, b))
    && (forall b, c :: b in bound && c in bound && b.local == c.local ==> b == c)
  }

  ghost predicate BoundRight(t: Topology, base: int, b: Binding) {
    && b.end < 2 * |t.links| && b == BindingOf(base, b.end)
    && 1 <= b.local <= 65535
    && OtherEnd(b.end) < 2 * |t.links| && OtherEnd(b.end) / 2 == b.end / 2
    && b.remote == BindingOf(base, OtherEnd(b.end)).local
  }

  lemma {:induction false} CountBindings(base: int, ends: seq<nat>, k: nat)
    ensures multiset(Bindings(base, ends))[BindingOf(base, k)] == multiset(ends)[k]
    decreases |ends|
  {
    if ends != [] {
      var n := |ends| - 1;
      CountBindings(base, ends[..n], k);
      assert ends == ends[..n] + [ends[n]];
      assert Bindings(base, ends) == Bindings(base, ends[..n]) + [BindingOf(base, ends[n])];
    }
  }

  lemma BindingIsRight(t: Topology, base: int, k: nat)
    requires k < 2 * |t.links| && PortRangeFits(|t.links|, base)
    ensures BoundRight(t, base, BindingOf(base, k)) && BindingOf(base, k).local == base + k
  {
  }

  lemma ListenersAreWellBound(t: Topology, options: HostOptions)
    requires ValidTopology(t) && Supported(t, options)
    ensures WellBound(t, BasePort(options), Bindings(BasePort(options), AllEnds(t)))
  {
    var base := BasePort(options);
    forall j: nat ensures multiset(AllEnds(t))[j] == One(j < 2 * |t.links|) {
      EveryEndOnce(t, options, j);
    }
    OnceEachIsWellBound(t, base, AllEnds(t));
  }

  /** Binding every end once is all it takes. */
  lemma OnceEachIsWellBound(t: Topology, base: int, ends: seq<nat>)
    requires PortRangeFits(|t.links|, base)
    requires forall j: nat :: multiset(ends)[j] == One(j < 2 * |t.links|)
    ensures WellBound(t, base, Bindings(base, ends))
  {
    var bound := Bindings(base, ends);
    forall k: nat ensures multiset(bound)[BindingOf(base, k)] == One(k < 2 * |t.links|) {
      CountBindings(base, ends, k);
    }
    forall b | b in bound ensures BoundRight(t, base, b) && b.local == base + b.end {
      EachIsRight(t, base, ends, b);
    }
    forall b, c | b in bound && c in bound && b.local == c.local ensures b == c {
      EachIsRight(t, base, ends, b);
      EachIsRight(t, base, ends, c);
    }
  }

  lemma EachIsRight(t: Topology, base: int, ends: seq<nat>, b: Binding)
    requires PortRangeFits(|t.links|, base) && b in Bindings(base, ends)
    requires forall j: nat :: multiset(ends)[j] == One(j < 2 * |t.links|)
    ensures BoundRight(t, base, b) && b.local == base + b.end && b == BindingOf(base, b.end)
  {
    var i :| 0 <= i < |ends| && Bindings(base, ends)[i] == b;
    assert ends[i] in multiset(ends);
    BindingIsRight(t, base, ends[i]);
  }

  // ------------------------------------------------------------ interface names

  ghost predicate IsToken(token: string) {
    |token| == 8 && forall i :: 0 <= i < 8 ==> IsHexDigit(token[i])
  }

  /** Host interfaces of a run: the host side of the veth pair for a link end, its
      peer before it is moved and renamed, and the bridge of a domain port. */
  datatype HostInterface = HostSide(end: nat) | PeerSide(end: nat) | DomainBridge(counter: nat)

  function HostName(token: string, end: nat): string {
    "tx" + token + Hex(end, 4)
  }

  /** `peerInterfaceName`. */
  function PeerName(host: string): string {
    var name := "p" + host;
    if |name| <= 15 then name else name[..15]
  }

  function BridgeName(token: string, counter: nat): string {
    "tx" + token + "g" + Hex(counter, 3)
  }

  function NameOf(token: string, i: HostInterface): string {
    match i
    case HostSide(end) => HostName(token, end)
    case PeerSide(end) => PeerName(HostName(token, end))
    case DomainBridge(counter) => BridgeName(token, counter)
  }

  predicate InRange(i: HostInterface) {
    match i
    case HostSide(end) => end <= 65535
    case PeerSide(end) => end <= 65535
    case DomainBridge(counter) => counter <= 65535
  }

  /** Names fit the kernel's limit, and the peer name is never cut. */
  lemma NamesFit(token: string, i: HostInterface)
    requires IsToken(token) && InRange(i)
    ensures |NameOf(token, i)| <= 15
    ensures i.PeerSide? ==> NameOf(token, i) == "p" + HostName(token, i.end)
  {
    match i
    case HostSide(end) => HexFits(end, 4);
    case PeerSide(end) => HexFits(end, 4);
    case DomainBridge(counter) => HexFits(counter, 3);
  }

  function Number(i: HostInterface): nat {
    match i
    case HostSide(end) => end
    case PeerSide(end) => end
    case DomainBridge(counter) => counter
  }

  /** What a name shows of its interface: kind and number. */
  lemma NameShows(token: string, i: HostInterface)
    requires IsToken(token) && InRange(i)
    ensures var x := NameOf(token, i);
            && |x| > 10
            && (x[0] == 'p' <==> i.PeerSide?) && (i.HostSide? ==> IsHexDigit(x[10])) && (i.DomainBridge? ==> x[10] == 'g')
            && x[if i.HostSide? then 10 else 11..] == Hex(Number(i), if i.DomainBridge? then 3 else 4)
  {
    NamesFit(token, i);
    var x := NameOf(token, i);
    match i
    case HostSide(end) => assert x[10..] == Hex(end, 4) && x[10] == Hex(end, 4)[0];
    case PeerSide(end) => assert x[11..] == Hex(end, 4);
    case DomainBridge(counter) => assert x[11..] == Hex(counter, 3);
  }

  /** Different interfaces of a run have different names. */
  lemma NamesDiffer(token: string, a: HostInterface, b: HostInterface)
    requires IsToken(token) && InRange(a) && InRange(b)
    requires NameOf(token, a) == NameOf(token, b)
    ensures a == b
  {
    NameShows(token, a);
    NameShows(token, b);
    HexIsInjective(Number(a), Number(b), if a.DomainBridge? then 3 else 4);
  }
}
