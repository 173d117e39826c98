/** Topologies and their validation (`topology/validate.go`). */
module Topologies {
  import opened Options
  import opened Views

  const ETHERNET := "ethernet"
  const SERIAL := "serial"

  datatype Port = Port(id: string, kind: string)

  datatype Endpoint = Endpoint(node: string, port: string)

  datatype Link = Link(id: string, kind: string, a: Endpoint, b: Endpoint, mtu: nat)

  datatype Env = Env(name: string, value: string)

  /** A native router port for a logical port. */
  datatype NativePort = NativePort(id: string, slot: nat, port: nat)

  /** A parsed address: an IPv4 address as a number, or any other. */
  datatype Address = V4(bits: nat) | NotV4

  /** `ip` and `mac` are what the parsers make of the texts, `None` for an error;
      `Unsupported` is any other implementation of the spec interface. */
  datatype Spec =
    | Container(provider: string, image: string, env: seq<Env>)
    | Domain(image: string)
    | Shitnet(ip: Option<Address>, mac: Option<seq<bv8>>)
    | Dynamips(image: string, interfaces: seq<NativePort>)
    | Unsupported

  datatype Node = Node(id: string, spec: Spec, ports: seq<Port>)

  datatype Topology = Topology(id: string, nodes: seq<Node>, links: seq<Link>, views: seq<View>)

  // ------------------------------------------------------------ what is valid

  ghost predicate IsKind(kind: string) {
    kind in {"ethernet", "serial"}
  }

  /** A variable with a name, which has no `=`, and no NUL in either part. */
  ghost predicate EnvValid(env: Env) {
    && |env.name| > 0
    && (forall i :: 0 <= i < |env.name| ==> env.name[i] != '=' && env.name[i] != '\0')
    && (forall i :: 0 <= i < |env.value| ==> env.value[i] != '\0')
  }

  /** A specified IPv4 address. */
  ghost predicate IsHost(ip: Option<Address>) {
    ip.Some? && ip.value.V4? && ip.value.bits > 0
  }

  /** A unicast Ethernet address: six bytes, group bit clear. */
  ghost predicate IsUnicast(mac: Option<seq<bv8>>) {
    mac.Some? && |mac.value| == 6 && mac.value[0] & 1 == 0
  }

  ghost predicate SpecValid(spec: Spec) {
    match spec
    case Container(_, image, env) =>
      && image != ""
      && (forall i :: 0 <= i < |env| ==> EnvValid(env[i]))
      && (forall i, j :: 0 <= i < j < |env| ==> env[i].name != env[j].name)
    case Domain(image) => image != ""
    case Shitnet(ip, mac) => IsHost(ip) && IsUnicast(mac)
    case Dynamips(image, _) => image != ""
    case Unsupported => false
  }

  ghost predicate SpecsValid(nodes: seq<Node>) {
    forall i :: 0 <= i < |nodes| ==> SpecValid(nodes[i].spec)
  }

  ghost predicate PortsValid(ports: seq<Port>) {
    && (forall i :: 0 <= i < |ports| ==> ports[i].id != "" && IsKind(ports[i].kind))
    && (forall i, j :: 0 <= i < j < |ports| ==> ports[i].id != ports[j].id)
  }

  ghost predicate NodesValid(nodes: seq<Node>) {
    && (forall i :: 0 <= i < |nodes| ==> nodes[i].id != "" && PortsValid(nodes[i].ports))
    && (forall i, j :: 0 <= i < j < |nodes| ==> nodes[i].id != nodes[j].id)
  }

  ghost predicate HasPort(nodes: seq<Node>, e: Endpoint, kind: string) {
    exists i, j :: 0 <= i < |nodes| && 0 <= j < |nodes[i].ports| && nodes[i].id == e.node
                   && nodes[i].ports[j] == Port(e.port, kind)
  }

  /** A link joins two different existing ports of its own medium. */
  ghost predicate LinkValid(nodes: seq<Node>, link: Link) {
    && link.id != "" && IsKind(link.kind) && link.a != link.b
    && HasPort(nodes, link.a, link.kind) && HasPort(nodes, link.b, link.kind)
  }

  /** The ends of all links in order: end `2 * i` and end `2 * i + 1` are the two
      sides of link `i`. */
  function EndAt(links: seq<Link>, k: nat): Endpoint
    requires k < 2 * |links|
  {
    if k % 2 == 0 then links[k / 2].a else links[k / 2].b
  }

  /** No port belongs to two link ends. */
  ghost predicate Matching(links: seq<Link>) {
    forall j, k :: 0 <= j < k < 2 * |links| ==> EndAt(links, j) != EndAt(links, k)
  }

  ghost predicate LinksValid(nodes: seq<Node>, links: seq<Link>) {
    && (forall i :: 0 <= i < |links| ==> LinkValid(nodes, links[i]))
    && (forall i, j :: 0 <= i < j < |links| ==> links[i].id != links[j].id)
    && Matching(links)
  }

  /** Everything validation asks for besides the topology ID and the specs. */
  ghost predicate Structured(t: Topology) {
    Wired(t) && ViewsValid(t.views, NodeIdSet(t.nodes), LinkIds(t.links))
  }

  ghost predicate Wired(t: Topology) {
    NodesValid(t.nodes) && LinksValid(t.nodes, t.links)
  }

  ghost function NodeIdSet(nodes: seq<Node>): set<string> {
    set i | 0 <= i < |nodes| :: nodes[i].id
  }

  ghost function LinkIds(links: seq<Link>): set<string> {
    set i | 0 <= i < |links| :: links[i].id
  }

  ghost predicate ValidTopology(t: Topology) {
    t.id != "" && SpecsValid(t.nodes) && Structured(t)
  }

  /** Where validation stopped. */
  datatype Defect = MissingId | InvalidSpec(node: string) | Malformed

  // ------------------------------------------------------------ validation

  method CheckEnv(env: seq<Env>) returns (ok: bool)
    ensures ok <==> (forall i :: 0 <= i < |env| ==> EnvValid(env[i]))
                    && (forall i, j :: 0 <= i < j < |env| ==> env[i].name != env[j].name)
  {
    var names: set<string> := {};
    for i := 0 to |env|
      invariant forall n :: n in names <==> exists j :: 0 <= j < i && env[j].name == n
      invariant forall j :: 0 <= j < i ==> EnvValid(env[j])
      invariant forall j, k :: 0 <= j < k < i ==> env[j].name != env[k].name
    {
      if env[i].name == "" || '=' in env[i].name || '\0' in env[i].name || '\0' in env[i].value {
        return false;
      }
      if env[i].name in names {
        return false;
      }
      names := names + {env[i].name};
    }
    ok := true;
  }

  method CheckPorts(ports: seq<Port>) returns (ok: bool)
    ensures ok <==> PortsValid(ports)
  {
    var ids: set<string> := {};
    for i := 0 to |ports|
      invariant forall p :: p in ids <==> exists j :: 0 <= j < i && ports[j].id == p
      invariant forall j :: 0 <= j < i ==> ports[j].id != "" && IsKind(ports[j].kind)
      invariant forall j, k :: 0 <= j < k < i ==> ports[j].id != ports[k].id
    {
      if ports[i].id == "" || (ports[i].kind != ETHERNET && ports[i].kind != SERIAL) || ports[i].id in ids {
        return false;
      }
      ids := ids + {ports[i].id};
    }
    ok := true;
  }

  /** `validateNode`. */
  method ValidateNode(node: Node) returns (err: Option<Defect>)
    ensures err.None? <==> NodeFine(node)
    ensures err.Some? ==> (err.value.InvalidSpec? && !SpecValid(node.spec))
                          || (err.value.Malformed? && (node.id == "" || !PortsValid(node.ports)))
  {
    if node.id == "" {
      return Some(Malformed);
    }
    var specOk;
    match node.spec {
      case Container(_, image, env) =>
        specOk := image != "";
        if specOk {
          specOk := CheckEnv(env);
        }
      case Domain(image) => specOk := image != "";
      case Shitnet(ip, mac) =>
        specOk := !(ip.None? || !ip.value.V4? || ip.value.bits == 0 || mac.None? || |mac.value| != 6
                    || mac.value[0] & 1 != 0);
      case Dynamips(image, _) => specOk := image != "";
      case Unsupported => specOk := false;
    }
    if !specOk {
      return Some(InvalidSpec(node.id));
    }
    var portsOk := CheckPorts(node.ports);
    err := if portsOk then None else Some(Malformed);
  }

  ghost predicate NodeFine(node: Node) {
    node.id != "" && SpecValid(node.spec) && PortsValid(node.ports)
  }

  /** The node map built by the first loop of `Validate`. */
  ghost predicate IndexesNodes(byId: map<string, Node>, nodes: seq<Node>) {
    && (forall i :: 0 <= i < |nodes| ==> nodes[i].id in byId && byId[nodes[i].id] == nodes[i])
    && (forall id :: id in byId ==> exists i :: 0 <= i < |nodes| && nodes[i].id == id)
  }

  /** How the node loop may fail. */
  ghost predicate Explains(defect: Defect, nodes: seq<Node>) {
    (defect.InvalidSpec? && !SpecsValid(nodes)) || (defect.Malformed? && !NodesValid(nodes))
  }

  method ValidateNodes(nodes: seq<Node>) returns (err: Option<Defect>, byId: map<string, Node>)
    ensures err.None? <==> SpecsValid(nodes) && NodesValid(nodes)
    ensures err.None? ==> IndexesNodes(byId, nodes)
    ensures err.Some? ==> Explains(err.value, nodes)
  {
    byId, err := map[], None;
    var i := 0;
    while err.None? && i < |nodes|
      invariant 0 <= i <= |nodes|
      invariant err.None? ==> IndexesNodes(byId, nodes[..i]) && FineSoFar(nodes, i)
      invariant err.Some? ==> Explains(err.value, nodes)
    {
      err := NodeFits(byId, nodes, i);
      byId := byId[nodes[i].id := nodes[i]];
      i := i + 1;
    }
    assert nodes[..|nodes|] == nodes;
  }

  ghost predicate FineSoFar(nodes: seq<Node>, i: nat)
    requires i <= |nodes|
  {
    && (forall j :: 0 <= j < i ==> NodeFine(nodes[j]))
    && (forall j, k :: 0 <= j < k < i ==> nodes[j].id != nodes[k].id)
  }

  /** The checks on one node, given the nodes before it. */
  method NodeFits(byId: map<string, Node>, nodes: seq<Node>, i: nat) returns (err: Option<Defect>)
    requires i < |nodes| && IndexesNodes(byId, nodes[..i]) && FineSoFar(nodes, i)
    ensures err.None? ==> IndexesNodes(byId[nodes[i].id := nodes[i]], nodes[..i + 1]) && FineSoFar(nodes, i + 1)
    ensures err.Some? ==> Explains(err.value, nodes)
  {
    err := ValidateNode(nodes[i]);
    if err.Some? {
      return;
    }
    if nodes[i].id in byId {
      IndexedTwice(byId, nodes, i);
      return Some(Malformed);
    }
    IndexNext(byId, nodes, i);
  }

  lemma IndexedTwice(byId: map<string, Node>, nodes: seq<Node>, i: nat)
    requires i < |nodes| && IndexesNodes(byId, nodes[..i]) && nodes[i].id in byId
    ensures !NodesValid(nodes)
  {
    var front := nodes[..i];
    var j :| 0 <= j < |front| && front[j].id == nodes[i].id;
    assert nodes[j].id == nodes[i].id;
  }

  lemma IndexNext(byId: map<string, Node>, nodes: seq<Node>, i: nat)
    requires i < |nodes| && IndexesNodes(byId, nodes[..i]) && nodes[i].id !in byId
    ensures IndexesNodes(byId[nodes[i].id := nodes[i]], nodes[..i + 1])
    ensures forall j :: 0 <= j < i ==> nodes[j].id != nodes[i].id
  {
    forall j | 0 <= j < i ensures nodes[j].id != nodes[i].id {
      assert nodes[..i][j].id in byId;
    }
    var more, front, longer := byId[nodes[i].id := nodes[i]], nodes[..i], nodes[..i + 1];
    assert longer == front + [nodes[i]];
    forall id | id in more ensures exists j :: 0 <= j < |longer| && longer[j].id == id {
      if id == nodes[i].id {
        assert longer[i].id == id;
      } else {
        var j :| 0 <= j < |front| && front[j].id == id;
        assert longer[j].id == id;
      }
    }
  }

  /** `findPort`. */
  method FindPort(byId: map<string, Node>, e: Endpoint) returns (port: Option<Port>)
    ensures port.Some? ==> e.node in byId && port.value in byId[e.node].ports && port.value.id == e.port
    ensures port.None? ==> e.node !in byId
                           || forall i :: 0 <= i < |byId[e.node].ports| ==> byId[e.node].ports[i].id != e.port
  {
    if e.node !in byId {
      return None;
    }
    var ports := byId[e.node].ports;
    for i := 0 to |ports|
      invariant forall j :: 0 <= j < i ==> ports[j].id != e.port
    {
      if ports[i].id == e.port {
        return Some(ports[i]);
      }
    }
    port := None;
  }

  /** What a found port says about the topology: its medium, and no other. */
  lemma FoundPort(byId: map<string, Node>, nodes: seq<Node>, e: Endpoint, port: Option<Port>)
    requires NodesValid(nodes) && IndexesNodes(byId, nodes)
    requires port.Some? ==> e.node in byId && port.value in byId[e.node].ports && port.value.id == e.port
    requires port.None? ==> e.node !in byId
                            || forall i :: 0 <= i < |byId[e.node].ports| ==> byId[e.node].ports[i].id != e.port
    ensures forall kind :: HasPort(nodes, e, kind) <==> port.Some? && port.value.kind == kind
  {
    forall kind ensures HasPort(nodes, e, kind) <==> port.Some? && port.value.kind == kind {
      if HasPort(nodes, e, kind) {
        PortIsIndexed(byId, nodes, e, kind);
      }
      if port.Some? && port.value.kind == kind {
        IndexedPortExists(byId, nodes, e, port.value);
      }
    }
  }

  lemma PortIsIndexed(byId: map<string, Node>, nodes: seq<Node>, e: Endpoint, kind: string)
    requires NodesValid(nodes) && IndexesNodes(byId, nodes) && HasPort(nodes, e, kind)
    ensures e.node in byId && Port(e.port, kind) in byId[e.node].ports
    ensures forall p :: p in byId[e.node].ports && p.id == e.port ==> p.kind == kind
  {
    var i, j :| 0 <= i < |nodes| && 0 <= j < |nodes[i].ports| && nodes[i].id == e.node
                && nodes[i].ports[j] == Port(e.port, kind);
    assert byId[e.node] == nodes[i] && PortsValid(nodes[i].ports);
  }

  lemma IndexedPortExists(byId: map<string, Node>, nodes: seq<Node>, e: Endpoint, port: Port)
    requires IndexesNodes(byId, nodes) && e.node in byId && port in byId[e.node].ports && port.id == e.port
    ensures HasPort(nodes, e, port.kind)
  {
    var i :| 0 <= i < |nodes| && nodes[i].id == e.node;
    var j :| 0 <= j < |nodes[i].ports| && nodes[i].ports[j] == port;
    assert nodes[i].ports[j] == Port(e.port, port.kind);
  }

  /** `validateLink`. */
  method ValidateLink(byId: map<string, Node>, link: Link, ghost nodes: seq<Node>) returns (ok: bool)
    requires NodesValid(nodes) && IndexesNodes(byId, nodes)
    ensures ok <==> LinkValid(nodes, link)
  {
    if link.id == "" || (link.kind != ETHERNET && link.kind != SERIAL) || link.a == link.b {
      return false;
    }
    var a := FindPort(byId, link.a);
    FoundPort(byId, nodes, link.a, a);
    if a.None? {
      return false;
    }
    var b := FindPort(byId, link.b);
    FoundPort(byId, nodes, link.b, b);
    if b.None? {
      return false;
    }
    ok := a.value.kind == link.kind && b.value.kind == link.kind;
  }

  ghost function Ends(links: seq<Link>): set<Endpoint> {
    set k | 0 <= k < 2 * |links| :: EndAt(links, k)
  }

  /** Adding a link keeps the matching exactly when its ends are new. */
  lemma MatchingNext(links: seq<Link>, link: Link)
    ensures Matching(links + [link]) <==>
            Matching(links) && link.a != link.b && link.a !in Ends(links) && link.b !in Ends(links)
    ensures Ends(links + [link]) == Ends(links) + {link.a, link.b}
  {
    var longer := links + [link];
    var n := 2 * |links|;
    assert forall k: nat :: k < n ==> EndAt(longer, k) == EndAt(links, k);
    assert EndAt(longer, n) == link.a && EndAt(longer, n + 1) == link.b;
    assert forall e :: e in Ends(links) ==> e in Ends(longer) by {
      forall e | e in Ends(links) ensures e in Ends(longer) {
        var k :| 0 <= k < n && EndAt(links, k) == e;
        assert EndAt(longer, k) == e;
      }
    }
    if Matching(longer) {
      assert EndAt(longer, n) != EndAt(longer, n + 1);
      forall k | 0 <= k < n ensures EndAt(links, k) != link.a && EndAt(links, k) != link.b {
        assert EndAt(longer, k) != EndAt(longer, n) && EndAt(longer, k) != EndAt(longer, n + 1);
      }
      forall j, k | 0 <= j < k < n ensures EndAt(links, j) != EndAt(links, k) {
        assert EndAt(longer, j) != EndAt(longer, k);
      }
    }
    if Matching(links) && link.a != link.b && link.a !in Ends(links) && link.b !in Ends(links) {
      forall j, k | 0 <= j < k < n + 2 ensures EndAt(longer, j) != EndAt(longer, k) {
        if j < n {
          assert EndAt(links, j) in Ends(links);
        }
      }
    }
  }

  lemma LinksNext(nodes: seq<Node>, links: seq<Link>, link: Link)
    requires LinksValid(nodes, links)
    ensures LinksValid(nodes, links + [link]) <==>
            && link.id !in LinkIds(links) && LinkValid(nodes, link)
            && link.a !in Ends(links) && link.b !in Ends(links)
    ensures LinkIds(links + [link]) == LinkIds(links) + {link.id}
  {
    var longer := links + [link];
    MatchingNext(links, link);
    assert longer[|links|] == link;
    assert forall i :: 0 <= i < |links| ==> longer[i] == links[i];
    forall i | 0 <= i < |links| ensures links[i].id in LinkIds(longer) {
      assert longer[i].id == links[i].id;
    }
    if LinksValid(nodes, longer) {
      forall i | 0 <= i < |links| ensures links[i].id != link.id {
        assert longer[i].id != longer[|links|].id;
      }
    }
  }

  lemma PrefixLinksValid(nodes: seq<Node>, links: seq<Link>, n: nat)
    requires LinksValid(nodes, links) && n <= |links|
    ensures LinksValid(nodes, links[..n])
  {
    var front := links[..n];
    forall j, k | 0 <= j < k < 2 * n ensures EndAt(front, j) != EndAt(front, k) {
      assert EndAt(front, j) == EndAt(links, j) && EndAt(front, k) == EndAt(links, k);
    }
  }

  lemma BadPrefix(nodes: seq<Node>, links: seq<Link>, n: nat)
    requires n <= |links|
    ensures !LinksValid(nodes, links[..n]) ==> !LinksValid(nodes, links)
  {
    if LinksValid(nodes, links) {
      PrefixLinksValid(nodes, links, n);
    }
  }

  /** The second loop of `Validate`. */
  method ValidateLinks(byId: map<string, Node>, links: seq<Link>, ghost nodes: seq<Node>)
    returns (ok: bool, ids: set<string>)
    requires NodesValid(nodes) && IndexesNodes(byId, nodes)
    ensures ok <==> LinksValid(nodes, links)
    ensures ok ==> ids == LinkIds(links)
  {
    var connected: set<Endpoint> := {};
    ids := {};
    ok := true;
    var i := 0;
    assert links[..0] == [];
    while ok && i < |links|
      invariant 0 <= i <= |links|
      invariant ok <==> LinksValid(nodes, links[..i])
      invariant ok ==> ids == LinkIds(links[..i]) && connected == Ends(links[..i])
    {
      assert links[..i + 1] == links[..i] + [links[i]];
      ok := LinkFits(byId, ids, connected, links[i], nodes, links[..i]);
      ids, connected := ids + {links[i].id}, connected + {links[i].a, links[i].b};
      i := i + 1;
    }
    BadPrefix(nodes, links, i);
    assert links[..|links|] == links;
  }

  /** The checks on one link, given the links before it. */
  method LinkFits(byId: map<string, Node>, ids: set<string>, connected: set<Endpoint>, link: Link,
                  ghost nodes: seq<Node>, ghost done: seq<Link>)
    returns (ok: bool)
    requires NodesValid(nodes) && IndexesNodes(byId, nodes)
    requires LinksValid(nodes, done) && ids == LinkIds(done) && connected == Ends(done)
    ensures ok <==> LinksValid(nodes, done + [link])
    ensures LinkIds(done + [link]) == ids + {link.id} && Ends(done + [link]) == connected + {link.a, link.b}
  {
    LinksNext(nodes, done, link);
    MatchingNext(done, link);
    if link.id in ids {
      return false;
    }
    ok := ValidateLink(byId, link, nodes);
    ok := ok && link.a !in connected && link.b !in connected;
  }

  /** `Validate`. */
  method Validate(t: Topology) returns (err: Option<Defect>)
    ensures err.None? <==> ValidTopology(t)
    ensures err == Some(MissingId) <==> t.id == ""
    ensures err.Some? && err.value.InvalidSpec? ==> !SpecsValid(t.nodes)
    ensures err == Some(Malformed) ==> !Structured(t)
  {
    if t.id == "" {
      return Some(MissingId);
    }
    var byId;
    err, byId := ValidateNodes(t.nodes);
    if err.Some? {
      return;
    }
    var ok, ids := ValidateLinks(byId, t.links, t.nodes);
    if ok {
      IndexedIds(byId, t.nodes);
      ok := ValidateViews(t.views, byId.Keys, ids);
    }
    err := if ok then None else Some(Malformed);
  }

  lemma IndexedIds(byId: map<string, Node>, nodes: seq<Node>)
    requires IndexesNodes(byId, nodes)
    ensures byId.Keys == NodeIdSet(nodes)
  {
  }
}
