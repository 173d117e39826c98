/** The Lua topology builder (`topology/lua/builder.go`, `topology/lua/validate.go`). */
module LuaBuilder {
  import opened Options
  import opened Numerals
  import opened Topologies

  // ------------------------------------------------------------ index maps

  /** The node index and the node list describe each other. */
  ghost predicate NodesIndexed(nodes: seq<Node>, index: map<string, nat>) {
    && (forall i :: 0 <= i < |nodes| ==> nodes[i].id in index && index[nodes[i].id] == i)
    && (forall id :: id in index ==> index[id] < |nodes| && nodes[index[id]].id == id)
  }

  /** The port at an endpoint, according to the port index. */
  ghost predicate IndexedAt(nodes: seq<Node>, index: map<string, nat>, ports: map<Endpoint, nat>, e: Endpoint) {
    && e in ports && e.node in index && index[e.node] < |nodes|
    && ports[e] < |nodes[index[e.node]].ports|
    && nodes[index[e.node]].ports[ports[e]].id == e.port
  }

  /** The port index and the port lists describe each other. */
  ghost predicate PortsIndexed(nodes: seq<Node>, index: map<string, nat>, ports: map<Endpoint, nat>) {
    && (forall i, j :: 0 <= i < |nodes| && 0 <= j < |nodes[i].ports| ==>
          var e := Endpoint(nodes[i].id, nodes[i].ports[j].id);
          e in ports && ports[e] == j)
    && (forall e :: e in ports ==> IndexedAt(nodes, index, ports, e))
  }

  ghost predicate WellNamed(nodes: seq<Node>) {
    && (forall i :: 0 <= i < |nodes| ==> nodes[i].id != "")
    && (forall i, j :: 0 <= i < |nodes| && 0 <= j < |nodes[i].ports| ==>
          nodes[i].ports[j].id != "" && IsKind(nodes[i].ports[j].kind))
  }

  /** The generated identifier of the `n`-th link. */
  function LinkName(n: nat): string {
    "link-" + Digits(n, 10)
  }

  lemma LinkNamesDiffer(m: nat, n: nat)
    requires LinkName(m) == LinkName(n)
    ensures m == n
  {
    assert LinkName(m)[5..] == Digits(m, 10) && LinkName(n)[5..] == Digits(n, 10);
    DigitsAreInjective(m, n, 10);
  }

  /** Links have generated IDs, join ports of their own medium, and use each port
      at most once. */
  ghost predicate LinksBuilt(nodes: seq<Node>, links: seq<Link>, used: set<Endpoint>) {
    && (forall i :: 0 <= i < |links| ==> links[i].id == LinkName(i + 1) && LinkValid(nodes, links[i]))
    && used == Ends(links) && Matching(links)
  }

  /** What the maps say implies what validation asks for. */
  lemma BuiltIsStructured(nodes: seq<Node>, links: seq<Link>, index: map<string, nat>,
                          ports: map<Endpoint, nat>, used: set<Endpoint>, id: string)
    requires NodesIndexed(nodes, index) && PortsIndexed(nodes, index, ports) && WellNamed(nodes)
    requires LinksBuilt(nodes, links, used)
    ensures Structured(Topology(id, nodes, links, []))
  {
    forall i | 0 <= i < |nodes| ensures PortsValid(nodes[i].ports) {
      forall j, k | 0 <= j < k < |nodes[i].ports| ensures nodes[i].ports[j].id != nodes[i].ports[k].id {
        assert ports[Endpoint(nodes[i].id, nodes[i].ports[j].id)] == j;
        assert ports[Endpoint(nodes[i].id, nodes[i].ports[k].id)] == k;
      }
    }
    forall i, j | 0 <= i < j < |links| ensures links[i].id != links[j].id {
      if links[i].id == links[j].id {
        LinkNamesDiffer(i + 1, j + 1);
      }
    }
  }

  /** Growing a node keeps its old ports. */
  lemma HasPortGrows(nodes: seq<Node>, more: seq<Node>, e: Endpoint, kind: string)
    requires HasPort(nodes, e, kind)
    requires |nodes| <= |more|
    requires forall i :: 0 <= i < |nodes| ==> more[i].id == nodes[i].id && nodes[i].ports <= more[i].ports
    ensures HasPort(more, e, kind)
  {
    var i, j :| 0 <= i < |nodes| && 0 <= j < |nodes[i].ports| && nodes[i].id == e.node
                && nodes[i].ports[j] == Port(e.port, kind);
    assert more[i].ports[j] == Port(e.port, kind);
  }

  lemma LinksKept(nodes: seq<Node>, more: seq<Node>, links: seq<Link>, used: set<Endpoint>)
    requires LinksBuilt(nodes, links, used) && |nodes| <= |more|
    requires forall i :: 0 <= i < |nodes| ==> more[i].id == nodes[i].id && nodes[i].ports <= more[i].ports
    ensures LinksBuilt(more, links, used)
  {
    forall i | 0 <= i < |links| ensures LinkValid(more, links[i]) {
      HasPortGrows(nodes, more, links[i].a, links[i].kind);
      HasPortGrows(nodes, more, links[i].b, links[i].kind);
    }
  }

  lemma AddLink(nodes: seq<Node>, links: seq<Link>, used: set<Endpoint>, link: Link)
    requires LinksBuilt(nodes, links, used)
    requires link.id == LinkName(|links| + 1) && LinkValid(nodes, link) && link.a !in used && link.b !in used
    ensures LinksBuilt(nodes, links + [link], used + {link.a, link.b})
  {
    MatchingNext(links, link);
  }

  lemma AddPort(nodes: seq<Node>, index: map<string, nat>, ports: map<Endpoint, nat>, n: nat, port: Port)
    requires NodesIndexed(nodes, index) && PortsIndexed(nodes, index, ports) && WellNamed(nodes)
    requires n < |nodes| && Endpoint(nodes[n].id, port.id) !in ports && port.id != "" && IsKind(port.kind)
    ensures var more := nodes[n := nodes[n].(ports := nodes[n].ports + [port])];
            var ports' := ports[Endpoint(nodes[n].id, port.id) := |nodes[n].ports|];
            NodesIndexed(more, index) && PortsIndexed(more, index, ports') && WellNamed(more)
  {
    var more := nodes[n := nodes[n].(ports := nodes[n].ports + [port])];
    var added := Endpoint(nodes[n].id, port.id);
    var ports' := ports[added := |nodes[n].ports|];
    forall i, j | 0 <= i < |more| && 0 <= j < |more[i].ports|
      ensures var e := Endpoint(more[i].id, more[i].ports[j].id); e in ports' && ports'[e] == j
      ensures more[i].ports[j].id != "" && IsKind(more[i].ports[j].kind)
    {
      if i != n || j < |nodes[n].ports| {
        assert more[i].ports[j] == nodes[i].ports[j];
        assert Endpoint(nodes[i].id, nodes[i].ports[j].id) in ports;
      }
    }
    forall e | e in ports' ensures IndexedAt(more, index, ports', e) {
      if e != added {
        assert IndexedAt(nodes, index, ports, e);
      }
    }
  }

  lemma AddNode(nodes: seq<Node>, index: map<string, nat>, ports: map<Endpoint, nat>, node: Node)
    requires NodesIndexed(nodes, index) && PortsIndexed(nodes, index, ports) && WellNamed(nodes)
    requires node.id !in index && node.id != "" && node.ports == []
    ensures var index' := index[node.id := |nodes|];
            && NodesIndexed(nodes + [node], index') && PortsIndexed(nodes + [node], index', ports)
            && WellNamed(nodes + [node])
  {
    var more, index' := nodes + [node], index[node.id := |nodes|];
    assert forall i :: 0 <= i < |nodes| ==> more[i] == nodes[i];
    forall e | e in ports ensures IndexedAt(more, index', ports, e) {
      assert IndexedAt(nodes, index, ports, e);
    }
  }

  // ------------------------------------------------------------ the builder

  datatype NodeHandle = NodeHandle(builder: Builder?, id: string)

  function WithPort(nodes: seq<Node>, n: nat, id: string, kind: string): seq<Node>
    requires n < |nodes|
  {
    nodes[n := nodes[n].(ports := nodes[n].ports + [Port(id, kind)])]
  }

  datatype PortHandle = PortHandle(builder: Builder?, endpoint: Endpoint)

  class Builder {
    const id: string
    var nodes: seq<Node>
    var links: seq<Link>
    var nodeIndex: map<string, nat>
    var portIndex: map<Endpoint, nat>
    var used: set<Endpoint>

    ghost predicate Valid()
      reads this
    {
      && NodesIndexed(nodes, nodeIndex)
      && PortsIndexed(nodes, nodeIndex, portIndex)
      && WellNamed(nodes)
      && LinksBuilt(nodes, links, used)
    }

    function Top(): Topology
      reads this
    {
      Topology(id, nodes, links, [])
    }

    constructor (id: string)
      ensures Valid() && Top() == Topology(id, [], [], [])
    {
      this.id := id;
      nodes, links, nodeIndex, portIndex, used := [], [], map[], map[], {};
    }

    /** `node`; a nil spec is `None`. */
    method Node(id: string, spec: Option<Spec>) returns (handle: Option<NodeHandle>)
      requires Valid()
      modifies this
      ensures Valid() && links == old(links) && used == old(used) && portIndex == old(portIndex)
      ensures handle.Some? <==> id != "" && spec.Some? && id !in old(nodeIndex)
      ensures handle.Some? ==> handle.value == NodeHandle(this, id)
      ensures handle.Some? ==> nodes == old(nodes) + [Topologies.Node(id, spec.value, [])]
      ensures handle.None? ==> nodes == old(nodes) && nodeIndex == old(nodeIndex)
    {
      if id == "" || spec.None? || id in nodeIndex {
        return None;
      }
      var node := Topologies.Node(id, spec.value, []);
      AddNode(nodes, nodeIndex, portIndex, node);
      LinksKept(nodes, nodes + [node], links, used);
      nodeIndex := nodeIndex[id := |nodes|];
      nodes := nodes + [node];
      handle := Some(NodeHandle(this, id));
    }

    /** A port can be had: a new one of a known medium, or an existing one whose
        medium is not contradicted. */
    ghost predicate Grants(node: string, id: string, medium: string)
      requires Valid()
      reads this
    {
      && id != "" && node in nodeIndex
      && if Endpoint(node, id) in portIndex
         then medium == "" || PortKind(PortHandle(this, Endpoint(node, id))) == Some(medium)
         else medium == "" || IsKind(medium)
    }

    /** `nodeHandle.port`, on the handle's own builder. */
    method Port(node: string, id: string, medium: string) returns (handle: Option<PortHandle>)
      requires Valid()
      modifies this
      ensures Valid() && links == old(links) && used == old(used) && nodeIndex == old(nodeIndex)
      ensures handle.Some? <==> old(Grants(node, id, medium))
      ensures handle.Some? ==> handle.value == PortHandle(this, Endpoint(node, id)) && Endpoint(node, id) in portIndex
      ensures handle.None? || Endpoint(node, id) in old(portIndex) ==>
                nodes == old(nodes) && portIndex == old(portIndex)
      ensures handle.Some? && Endpoint(node, id) !in old(portIndex) ==>
                && nodeIndex[node] < |old(nodes)|
                && nodes == WithPort(old(nodes), nodeIndex[node], id, if medium == "" then ETHERNET else medium)
    {
      if id == "" || node !in nodeIndex {
        return None;
      }
      var n, e := nodeIndex[node], Endpoint(node, id);
      if e in portIndex {
        assert IndexedAt(nodes, nodeIndex, portIndex, e);
        var existing := nodes[n].ports[portIndex[e]];
        if medium != "" && medium != existing.kind {
          return None;
        }
        assert nodes[n].ports[portIndex[e]] == Topologies.Port(id, existing.kind);
        return Some(PortHandle(this, e));
      }
      var kind := if medium == "" then ETHERNET else medium;
      if kind != ETHERNET && kind != SERIAL {
        return None;
      }
      AppendPort(n, Topologies.Port(id, kind));
      handle := Some(PortHandle(this, e));
    }

    method AppendPort(n: nat, port: Topologies.Port)
      requires Valid() && n < |nodes| && Endpoint(nodes[n].id, port.id) !in portIndex
      requires port.id != "" && IsKind(port.kind)
      modifies this`nodes, this`portIndex
      ensures Valid()
      ensures nodes == WithPort(old(nodes), n, port.id, port.kind)
      ensures portIndex == old(portIndex)[Endpoint(old(nodes)[n].id, port.id) := |old(nodes)[n].ports|]
      ensures HasPort(nodes, Endpoint(nodes[n].id, port.id), port.kind)
    {
      AddPort(nodes, nodeIndex, portIndex, n, port);
      ghost var more := nodes[n := nodes[n].(ports := nodes[n].ports + [port])];
      LinksKept(nodes, more, links, used);
      portIndex := portIndex[Endpoint(nodes[n].id, port.id) := |nodes[n].ports|];
      nodes := nodes[n := nodes[n].(ports := nodes[n].ports + [port])];
      assert nodes[n].ports[|nodes[n].ports| - 1] == Topologies.Port(port.id, port.kind);
    }

    /** `portKind`: the medium of a port, found through both index maps. */
    function PortKind(handle: PortHandle): (kind: Option<string>)
      requires Valid()
      reads this
      ensures kind.Some? <==> handle.builder == this && handle.endpoint in portIndex
      ensures kind.Some? ==> HasPort(nodes, handle.endpoint, kind.value) && IsKind(kind.value)
    {
      var e := handle.endpoint;
      if handle.builder != this then None
      else if e.node !in nodeIndex || e !in portIndex then
        assert e in portIndex ==> IndexedAt(nodes, nodeIndex, portIndex, e);
        None
      else
        assert IndexedAt(nodes, nodeIndex, portIndex, e);
        var port := nodes[nodeIndex[e.node]].ports[portIndex[e]];
        assert port == Topologies.Port(e.port, port.kind);
        Some(port.kind)
    }

    /** `link`. */
    method Link(a: PortHandle, b: PortHandle, mtu: nat) returns (ok: bool)
      requires Valid()
      modifies this
      ensures Valid() && nodes == old(nodes) && nodeIndex == old(nodeIndex) && portIndex == old(portIndex)
      ensures ok <==> && old(PortKind(a)).Some? && old(PortKind(a)) == old(PortKind(b))
                      && a.endpoint != b.endpoint && a.endpoint !in old(used) && b.endpoint !in old(used)
      ensures ok ==>
                var kind := old(PortKind(a)).value;
                links == old(links) + [Topologies.Link(LinkName(|old(links)| + 1), kind, a.endpoint, b.endpoint, mtu)]
      ensures ok ==> used == old(used) + {a.endpoint, b.endpoint}
      ensures !ok ==> links == old(links) && used == old(used)
    {
      var kindA, kindB := PortKind(a), PortKind(b);
      if kindA.None? || kindB.None? || a.endpoint == b.endpoint || kindA.value != kindB.value {
        return false;
      }
      if a.endpoint in used || b.endpoint in used {
        return false;
      }
      var link := Topologies.Link(LinkName(|links| + 1), kindA.value, a.endpoint, b.endpoint, mtu);
      AddLink(nodes, links, used, link);
      links := links + [link];
      used := used + {a.endpoint, b.endpoint};
      ok := true;
    }

    /** The end of `Decode`: a built topology can only be refused for its ID or for
        a node spec. */
    method Finish() returns (err: Option<Defect>)
      requires Valid()
      ensures err.None? <==> id != "" && SpecsValid(nodes)
      ensures err.Some? ==> err.value.MissingId? || err.value.InvalidSpec?
    {
      BuiltIsStructured(nodes, links, nodeIndex, portIndex, used, id);
      err := Validate(Top());
    }
  }

  /** `nodeHandle.port` for any handle, including one without a builder. */
  method PortOf(node: NodeHandle, id: string, medium: string) returns (handle: Option<PortHandle>)
    requires node.builder != null ==> node.builder.Valid()
    modifies if node.builder == null then {} else {node.builder}
    ensures handle.Some? <==> node.builder != null && old(node.builder.Grants(node.id, id, medium))
    ensures handle.Some? ==> handle.value == PortHandle(node.builder, Endpoint(node.id, id))
    ensures node.builder != null ==>
              var b, e := node.builder, Endpoint(node.id, id);
              && b.Valid() && b.links == old(b.links) && b.used == old(b.used) && b.nodeIndex == old(b.nodeIndex)
              && (handle.None? || e in old(b.portIndex) ==> b.nodes == old(b.nodes) && b.portIndex == old(b.portIndex))
              && (handle.Some? ==> e in b.portIndex)
              && (handle.Some? && e !in old(b.portIndex) ==>
                    && b.nodeIndex[node.id] < |old(b.nodes)|
                    && b.nodes == WithPort(old(b.nodes), b.nodeIndex[node.id], id,
                                           if medium == "" then ETHERNET else medium))
  {
    if node.builder == null {
      return None;
    }
    handle := node.builder.Port(node.id, id, medium);
  }

  /** In every builder state: `Validate` accepts exactly when the topology has an
      ID and every spec is valid. */
  lemma BuilderTopologiesAreStructured(b: Builder)
    requires b.Valid()
    ensures ValidTopology(b.Top()) <==> b.id != "" && SpecsValid(b.nodes)
  {
    BuiltIsStructured(b.nodes, b.links, b.nodeIndex, b.portIndex, b.used, b.id);
  }
}
