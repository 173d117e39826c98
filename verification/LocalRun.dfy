/** `Running` (`topology/local/container.go`): the handle that owns what a start
    created, and `Start` itself. */
module LocalRun {
  import opened Options
  import opened Topologies
  import opened Allocation
  import opened Realization
  import Ordering

  // ------------------------------------------------------------ names in use

  /** An interface the run may already have created: bridge counters below
      `counter` and link ends below `end`. */
  predicate Below(i: HostInterface, counter: nat, end: nat) {
    match i
    case DomainBridge(c) => c < counter
    case HostSide(e) => e < end
    case PeerSide(e) => e < end
  }

  /** Name `i` is that of an interface made once. */
  ghost predicate NameMade(token: string, made: seq<HostInterface>, names: seq<string>, counter: nat, end: nat, i: nat) {
    i < |made| == |names| ==>
      && names[i] == NameOf(token, made[i]) && InRange(made[i]) && Below(made[i], counter, end)
      && forall j :: 0 <= j < i ==> made[j] != made[i]
  }

  /** The names in use are those of distinct interfaces. */
  ghost predicate NamesMade(token: string, made: seq<HostInterface>, names: seq<string>, counter: nat, end: nat) {
    |made| == |names| && forall i: nat :: NameMade(token, made, names, counter, end, i)
  }

  lemma MakeName(token: string, made: seq<HostInterface>, names: seq<string>, counter: nat, end: nat,
                 i: HostInterface, counter': nat, end': nat)
    requires NamesMade(token, made, names, counter, end) && counter <= counter' && end <= end'
    requires InRange(i) && Below(i, counter', end') && !Below(i, counter, end)
    ensures NamesMade(token, made + [i], names + [NameOf(token, i)], counter', end')
  {
    var more := made + [i];
    forall k: nat ensures NameMade(token, more, names + [NameOf(token, i)], counter', end', k) {
      assert NameMade(token, made, names, counter, end, k);
      forall j | 0 <= j < k && k == |made| ensures more[j] != more[k] {
        assert NameMade(token, made, names, counter, end, j);
      }
    }
  }

  /** All host interface names are distinct and fit in 15 bytes. */
  ghost predicate NamesGood(names: seq<string>) {
    && (forall i :: 0 <= i < |names| ==> |names[i]| <= 15)
    && (forall i, j :: 0 <= i < j < |names| ==> names[i] != names[j])
  }

  lemma MadeNamesAreGood(token: string, made: seq<HostInterface>, names: seq<string>, counter: nat, end: nat)
    requires IsToken(token) && NamesMade(token, made, names, counter, end)
    ensures NamesGood(names)
  {
    forall i | 0 <= i < |names| ensures |names[i]| <= 15 {
      assert NameMade(token, made, names, counter, end, i);
      NamesFit(token, made[i]);
    }
    forall i, j | 0 <= i < j < |names| ensures names[i] != names[j] {
      assert NameMade(token, made, names, counter, end, i) && NameMade(token, made, names, counter, end, j);
      if names[i] == names[j] {
        NamesDiffer(token, made[i], made[j]);
      }
    }
  }

  // ------------------------------------------------------------ steps of a start

  /** The nodes that a realizer of their own connects. */
  function Realized(t: Holdings): set<string> {
    t.domains.Keys + t.routers.Keys + t.endpoints
  }

  /** Node `n` is tracked besides the others. */
  ghost predicate Adds(before: Holdings, after: Holdings, n: string, container: bool) {
    && after.bridges == before.bridges && after.order == before.order + [n]
    && after.nodes.Keys == before.nodes.Keys + {n}
    && Realized(after) == Realized(before) + (if container then {} else {n})
    && after.providers.Keys == before.providers.Keys + (if container then {n} else {})
  }

  /** Node `n` is tracked besides the others, or was not reached. */
  ghost predicate Reached(before: Holdings, after: Holdings, n: string, container: bool) {
    && after.bridges == before.bridges
    && (|| (after.order == before.order && after.providers == before.providers)
        || (after.order == before.order + [n]
            && after.providers.Keys == before.providers.Keys + (if container then {n} else {})))
  }

  /** A domain whose own `Create` is still to come. */
  ghost predicate Unfinished(t: Holdings, n: string) {
    n in t.domains && t.domains[n].id.None? && t.domains[n].prepared.None?
  }

  lemma NextPort(base: int, ends: seq<Endpoint>, node: Node, i: nat)
    requires i < |node.ports|
    ensures Bindings(base, DomainEnds(ends, node.id, node.ports[..i + 1])) ==
            Bindings(base, DomainEnds(ends, node.id, node.ports[..i]))
            + Bindings(base, Where(ends, AtPort(Endpoint(node.id, node.ports[i].id))))
  {
    assert node.ports[..i + 1][..i] == node.ports[..i];
    BindingsAppend(base, DomainEnds(ends, node.id, node.ports[..i]),
                   Where(ends, AtPort(Endpoint(node.id, node.ports[i].id))));
  }

  lemma Regroup<T>(a: seq<T>, b: seq<T>, c: seq<T>)
    ensures a + b + c == a + (b + c)
  {
  }

  /** The same nodes of the same kinds. */
  ghost predicate KeepsKeys(before: Holdings, after: Holdings) {
    && after.nodes.Keys == before.nodes.Keys && after.domains.Keys == before.domains.Keys
    && after == before.(nodes := after.nodes, domains := after.domains)
  }

  /** One more resource in one field. */
  ghost predicate Grows(was: DomainResources, d: DomainResources, h: nat) {
    || d == was.(links := was.links + [h]) || d == was.(switches := was.switches + [h])
    || (was.prepared.None? && d == was.(prepared := Some(h))) || (was.id.None? && d == was.(id := Some(h)))
  }

  lemma GrowDomain(t: Holdings, owner: Ledger, n: string, h: nat, d: DomainResources)
    requires Tidy(t, owner) && n in t.domains && h !in owner
    requires Grows(t.domains[n], d, h)
    ensures Tidy(WithDomain(t, n, d), owner[h := Some(n)])
  {
    var was := t.domains[n];
    assert NodeShaped(t, n) && h !in PartsOf(t, n) by {
      assert NodeShaped(t, n) && Accounted(t, owner, h);
    }
    assert Elements(was.links + [h]) == Elements(was.links) + {h};
    assert Elements(was.switches + [h]) == Elements(was.switches) + {h};
    TrackInDomain(t, owner, n, d, h);
  }

  /** The ID that `nodes` gives a domain is not what owns its resources. */
  lemma RenameDomain(t: Holdings, owner: Ledger, n: string, h: nat)
    requires Tidy(t, owner) && n in t.domains
    ensures Tidy(t.(nodes := t.nodes[n := h]), owner)
  {
    var t' := t.(nodes := t.nodes[n := h]);
    assert NodeShaped(t, n);
    assert forall m :: PartsOf(t', m) == PartsOf(t, m);
    forall m ensures NodeShaped(t', m) {
      assert NodeShaped(t, m);
    }
    forall x ensures Accounted(t', owner, x) {
      assert Accounted(t, owner, x);
    }
  }

  // ------------------------------------------------------------ what a close tries

  ghost function Reversed(s: seq<nat>): seq<nat> {
    if s == [] then [] else Reversed(s[1..]) + [s[0]]
  }

  lemma ReversedNext(s: seq<nat>, i: nat)
    requires i < |s|
    ensures Reversed(s[i..]) == Reversed(s[i + 1..]) + [s[i]]
  {
    assert s[i..][1..] == s[i + 1..];
  }

  /** A node that could not be closed: only its domain resources may differ. */
  ghost function Kept(before: Holdings, after: Holdings, n: string): Holdings {
    if n in before.domains && n in after.domains then WithDomain(before, n, after.domains[n]) else before
  }

  /** The deletions tried for node `n` by a close that leads from `before` to
      `after`. */
  ghost function NodeTries(before: Holdings, after: Holdings, n: string): seq<nat> {
    if n !in before.nodes then []
    else if n in before.domains then
      DomainTries(before.domains[n], if n in after.domains then after.domains[n] else GONE)
    else if n in before.routers then [before.routers[n]]
    else [before.nodes[n]]
  }

  /** Those for the nodes from position `i` of the order on, last node first. */
  ghost function NodesTries(before: Holdings, after: Holdings, order: seq<string>, i: nat): seq<nat>
    decreases |order| - i
  {
    if i >= |order| then []
    else NodesTries(before, after, order, i + 1) + NodeTries(before, after, order[i])
  }

  /** Node `n` is held in the same way. */
  ghost predicate SameAt(a: Holdings, b: Holdings, n: string) {
    && (n in a.nodes <==> n in b.nodes) && (n in a.domains <==> n in b.domains) && (n in a.routers <==> n in b.routers)
    && (n in a.nodes ==> a.nodes[n] == b.nodes[n]) && (n in a.routers ==> a.routers[n] == b.routers[n])
    && (n in a.domains ==> a.domains[n] == b.domains[n])
  }

  lemma {:induction false} TriesIgnoreOthers(before: Holdings, a: Holdings, b: Holdings, order: seq<string>, i: nat)
    requires forall j :: i <= j < |order| ==> SameAt(a, b, order[j])
    ensures NodesTries(before, a, order, i) == NodesTries(before, b, order, i)
    decreases |order| - i
  {
    if i < |order| {
      TriesIgnoreOthers(before, a, b, order, i + 1);
      assert SameAt(a, b, order[i]);
    }
  }

  lemma {:induction false} TriesIgnoreBridges(a: Holdings, b: Holdings, after: Holdings, order: seq<string>, i: nat)
    requires a == b.(bridges := a.bridges)
    ensures NodesTries(a, after, order, i) == NodesTries(b, after, order, i)
    decreases |order| - i
  {
    if i < |order| {
      TriesIgnoreBridges(a, b, after, order, i + 1);
    }
  }

  /** The nodes from position `i` of the order on have been visited; `ok` says that
      all of them are gone. */
  ghost predicate ClosedFrom(first: Holdings, held: Holdings, i: nat, ok: bool) {
    && held == first.(nodes := held.nodes, domains := held.domains, routers := held.routers, endpoints := held.endpoints)
    && (forall j: nat :: VisitedAt(first, held, i, j))
    && (ok <==> forall j :: i <= j < |held.order| ==> held.order[j] !in held.nodes)
  }

  ghost predicate VisitedAt(first: Holdings, held: Holdings, i: nat, j: nat) {
    j < i && j < |held.order| ==> SameAt(first, held, held.order[j])
  }

  lemma NothingClosed(first: Holdings)
    ensures ClosedFrom(first, first, |first.order|, true)
    ensures NodesTries(first, first, first.order, |first.order|) == []
  {
    forall j: nat ensures VisitedAt(first, first, |first.order|, j) {
    }
  }

  lemma CloseStep(first: Holdings, before: Holdings, after: Holdings, i: nat, ok: bool, closed: bool, tried: seq<nat>)
    requires i < |before.order| && Ordering.Distinct(before.order) && ClosedFrom(first, before, i + 1, ok)
    requires if closed then after == WithoutNode(before, before.order[i])
             else after == Kept(before, after, before.order[i]) && before.order[i] in after.nodes
    ensures ClosedFrom(first, after, i, ok && closed)
    ensures tried + NodesTries(first, before, before.order, i + 1) + NodeTries(before, after, before.order[i]) ==
            tried + NodesTries(first, after, after.order, i)
  {
    assert VisitedAt(first, before, i + 1, i);
    TriesNext(first, before, after, before.order, i);
    Regroup(tried, NodesTries(first, before, before.order, i + 1), NodeTries(before, after, before.order[i]));
    assert after.order == before.order;
    VisitedNext(first, before, after, i, i + 1);
    forall j | i < j < |before.order| ensures before.order[j] in after.nodes <==> before.order[j] in before.nodes {
      assert SameAt(before, after, before.order[j]);
    }
  }

  lemma VisitedNext(first: Holdings, before: Holdings, after: Holdings, i: nat, n: nat)
    requires n == i + 1 && after.order == before.order && forall j: nat :: VisitedAt(first, before, n, j)
    requires forall j :: 0 <= j < |before.order| && j != i ==> SameAt(before, after, before.order[j])
    ensures forall j: nat :: VisitedAt(first, after, i, j)
  {
    forall j: nat ensures VisitedAt(first, after, i, j) {
      assert VisitedAt(first, before, n, j);
      if j < i && j < |before.order| {
        assert SameAt(before, after, before.order[j]);
      }
    }
  }

  lemma AllClosed(first: Holdings, held: Holdings, owner: Ledger, ok: bool)
    requires Tidy(held, owner) && ClosedFrom(first, held, 0, ok)
    ensures ok <==> held.nodes == map[]
  {
    if ok {
      forall n ensures n !in held.nodes {
        assert NodeShaped(held, n);
      }
    }
  }

  /** One more node closed. */
  lemma TriesNext(first: Holdings, before: Holdings, after: Holdings, order: seq<string>, i: nat)
    requires i < |order| && Ordering.Distinct(order) && SameAt(first, before, order[i])
    requires after == WithoutNode(before, order[i]) || after == Kept(before, after, order[i])
    ensures NodesTries(first, after, order, i) ==
            NodesTries(first, before, order, i + 1) + NodeTries(before, after, order[i])
    ensures forall j :: 0 <= j < |order| && j != i ==> SameAt(before, after, order[j])
  {
    forall j | 0 <= j < |order| && j != i ensures SameAt(before, after, order[j]) {
    }
    TriesIgnoreOthers(first, before, after, order, i + 1);
  }

  // ------------------------------------------------------------ what a start needs

  /** The port pair of link end `k` lies in the range of UDP ports. */
  ghost predicate PairFits(base: int, k: nat) {
    var b := BindingOf(base, k);
    1 <= b.local <= 65535 && 1 <= b.remote <= 65535
  }

  ghost predicate EndpointReady(links: seq<Link>, node: string, base: int) {
    var ends := Where(Endpoints(links), OnNode(node));
    ends != [] && PairFits(base, ends[0])
  }

  ghost predicate MappingsDistinct(interfaces: seq<NativePort>) {
    forall i, j :: 0 <= i < j < |interfaces| ==> interfaces[i].id != interfaces[j].id
  }

  ghost predicate HasMapping(interfaces: seq<NativePort>, port: string) {
    exists i :: 0 <= i < |interfaces| && interfaces[i].id == port
  }

  ghost predicate RouterReady(links: seq<Link>, node: Node, base: int)
    requires node.spec.Dynamips?
  {
    && MappingsDistinct(node.spec.interfaces)
    && forall k :: 0 <= k < 2 * |links| && EndAt(links, k).node == node.id ==>
         HasMapping(node.spec.interfaces, EndAt(links, k).port) && PairFits(base, k)
  }

  ghost predicate NodeReady(links: seq<Link>, node: Node, options: HostOptions) {
    match node.spec
    case Domain(_) => true
    case Shitnet(_, _) => EndpointReady(links, node.id, BasePort(options))
    case Dynamips(_, _) => RouterReady(links, node, BasePort(options))
    case Container(provider, _, _) => provider in options.containers
    case Unsupported => false
  }

  /** The ports of all domains, each of which takes a bridge name. */
  ghost function DomainPorts(nodes: seq<Node>): nat {
    if nodes == [] then 0
    else
      var n := |nodes| - 1;
      DomainPorts(nodes[..n]) + PortsTaken(nodes[n])
  }

  ghost function PortsTaken(node: Node): nat {
    if node.spec.Domain? then |node.ports| else 0
  }

  ghost predicate NodesReady(t: Topology, options: HostOptions, m: nat)
    requires m <= |t.nodes|
  {
    forall i :: 0 <= i < m ==> NodeReady(t.links, t.nodes[i], options)
  }

  ghost predicate Ready(t: Topology, options: HostOptions) {
    NodesReady(t, options, |t.nodes|) && DomainPorts(t.nodes) <= 65536
  }

  lemma {:induction false} DomainPortsGrow(nodes: seq<Node>, m: nat)
    requires m <= |nodes|
    ensures DomainPorts(nodes[..m]) <= DomainPorts(nodes)
    decreases |nodes|
  {
    if m < |nodes| {
      DomainPortsGrow(nodes[..|nodes| - 1], m);
      assert nodes[..|nodes| - 1][..m] == nodes[..m];
    } else {
      assert nodes[..m] == nodes;
    }
  }

  lemma DomainPortsNext(nodes: seq<Node>, i: nat)
    requires i < |nodes|
    ensures DomainPorts(nodes[..i + 1]) == DomainPorts(nodes[..i]) + PortsTaken(nodes[i])
    ensures DomainPorts(nodes[..i + 1]) <= DomainPorts(nodes)
  {
    assert nodes[..i + 1][..i] == nodes[..i];
    DomainPortsGrow(nodes, i + 1);
  }

  /** The first `i` nodes are ready and have taken `taken` bridge names. */
  ghost predicate ReadySoFar(t: Topology, options: HostOptions, i: nat, taken: nat)
    requires i <= |t.nodes|
  {
    NodesReady(t, options, i) && taken == DomainPorts(t.nodes[..i]) <= 65536
  }

  lemma ReadyNext(t: Topology, options: HostOptions, i: nat, taken: nat)
    requires i < |t.nodes| && ReadySoFar(t, options, i, taken)
    ensures if NodeReady(t.links, t.nodes[i], options) && taken + PortsTaken(t.nodes[i]) <= 65536
            then ReadySoFar(t, options, i + 1, taken + PortsTaken(t.nodes[i]))
            else !Ready(t, options)
  {
    DomainPortsNext(t.nodes, i);
  }

  /** What the nodes of a supported topology need before a start can succeed, said
      without ports and providers: endpoints are linked, routers have a mapping for
      every linked port and none twice, and the bridge names suffice. */
  ghost predicate Startable(t: Topology) {
    && DomainPorts(t.nodes) <= 65536
    && forall i :: 0 <= i < |t.nodes| ==> NodeStartable(t.links, t.nodes[i])
  }

  ghost predicate NodeStartable(links: seq<Link>, node: Node) {
    && (node.spec.Shitnet? ==> exists k :: 0 <= k < 2 * |links| && EndAt(links, k).node == node.id)
    && (node.spec.Dynamips? ==>
          && MappingsDistinct(node.spec.interfaces)
          && forall k :: 0 <= k < 2 * |links| && EndAt(links, k).node == node.id ==>
               HasMapping(node.spec.interfaces, EndAt(links, k).port))
  }

  lemma ReadyIsStartable(t: Topology, options: HostOptions)
    requires Supported(t, options)
    ensures Ready(t, options) <==> Startable(t)
  {
    forall i | 0 <= i < |t.nodes| ensures NodeReady(t.links, t.nodes[i], options) <==> NodeStartable(t.links, t.nodes[i]) {
      assert NodeSupported(t.nodes[i], options);
      NodeReadyIsStartable(t, options, t.nodes[i]);
    }
  }

  lemma NodeReadyIsStartable(t: Topology, options: HostOptions, node: Node)
    requires PortRangeFits(|t.links|, BasePort(options)) && NodeSupported(node, options)
    ensures NodeReady(t.links, node, options) <==> NodeStartable(t.links, node)
  {
    forall k: nat | k < 2 * |t.links| ensures PairFits(BasePort(options), k) {
      BindingIsRight(t, BasePort(options), k);
    }
    if node.spec.Shitnet? {
      FirstIsThere(t.links, node.id);
    }
  }

  lemma FirstIsThere(links: seq<Link>, node: string)
    ensures var ends := Where(Endpoints(links), OnNode(node));
            && (ends != [] <==> exists k :: 0 <= k < 2 * |links| && EndAt(links, k).node == node)
            && (ends != [] ==> ends[0] < 2 * |links|)
  {
    var ends := Where(Endpoints(links), OnNode(node));
    if ends != [] {
      assert ends[0] in multiset(ends);
      CountWhere(Endpoints(links), OnNode(node), ends[0]);
      assert EndAt(links, ends[0]).node == node;
    }
    if k :| 0 <= k < 2 * |links| && EndAt(links, k).node == node {
      CountWhere(Endpoints(links), OnNode(node), k);
      assert k in multiset(ends);
    }
  }

  // ------------------------------------------------------------ the handle

  class Running {
    var held: Holdings
    var nextDomainPort: nat

    /** Who owns each tracked resource, and the interfaces made so far. */
    ghost var owner: Ledger
    ghost var made: seq<HostInterface>

    /** Every resource of the run is tracked exactly once, abandoned or gone. */
    ghost predicate Owns(host: Host)
      reads `held, `owner, host`next, host`live, host`abandoned
    {
      Tidy(held, owner) && host.Accounts(owner.Keys) && Ordering.Distinct(held.order)
    }

    ghost predicate Named(host: Host, token: string, end: nat)
      reads `made, `nextDomainPort, host`interfaces
    {
      NamesMade(token, made, host.interfaces, nextDomainPort, end)
    }

    constructor ()
      ensures held == NOTHING_HELD && nextDomainPort == 0
      ensures owner == map[] && made == [] && Tidy(held, owner)
    {
      held, nextDomainPort, owner, made := NOTHING_HELD, 0, map[], [];
    }

    // ---------------------------------------------------------- starting

    /** Records a new node that owns the new resource `h`. */
    method Track(host: Host, n: string, h: nat, t: Holdings)
      requires Tidy(held, owner) && Ordering.Distinct(held.order) && n !in held.order && h !in owner
      requires host.Accounts(owner.Keys + {h}) && Tracks(held, n, h, t)
      modifies this`held, this`owner
      ensures Owns(host) && held == t
    {
      assert n !in held.nodes by {
        assert NodeShaped(held, n);
      }
      TrackNode(held, owner, n, h, t);
      assert owner[h := Some(n)].Keys == owner.Keys + {h};
      held, owner := t, owner[h := Some(n)];
    }

    /** Records the new resource `h` in a domain. */
    method Extend(host: Host, n: string, h: nat, d: DomainResources)
      requires Tidy(held, owner) && Ordering.Distinct(held.order) && n in held.domains && h !in owner
      requires host.Accounts(owner.Keys + {h}) && Grows(held.domains[n], d, h)
      modifies this`held, this`owner
      ensures Owns(host) && held == WithDomain(old(held), n, d)
    {
      GrowDomain(held, owner, n, h, d);
      assert owner[h := Some(n)].Keys == owner.Keys + {h};
      held, owner := WithDomain(held, n, d), owner[h := Some(n)];
    }

    /** A container node: create, pull a missing image once, track, start. */
    method StartContainer(host: Host, n: string, provider: string) returns (ok: bool)
      requires Owns(host) && host.Explained() && n !in held.order
      modifies host`calls, host`next, host`live, host`faults, host`abandoned, this`held, this`owner
      ensures Owns(host) && host.Explained() && host.calls > old(host.calls)
      ensures host.NoneCreated() ==> held == old(held)
      ensures Reached(old(held), held, n, true) && (ok ==> Adds(old(held), held, n, true))
      ensures host.faults >= old(host.faults) && (ok <==> host.faults == old(host.faults))
    {
      var h := ObtainContainer(host);
      if h.None? {
        return false;
      }
      Track(host, n, h.value, WithContainer(held, n, h.value, provider));
      ok := host.Try();
    }

    /** Creates a container, after pulling its image if that is missing. */
    method ObtainContainer(host: Host) returns (h: Option<nat>)
      requires host.Accounts(owner.Keys) && host.Explained()
      modifies host`calls, host`next, host`live, host`faults, host`abandoned
      ensures host.Explained() && host.calls > old(host.calls)
      ensures host.Accounts(if h.Some? then owner.Keys + {h.value} else owner.Keys)
      ensures h.Some? ==> h.value !in owner && !host.NoneCreated()
      ensures host.faults == old(host.faults) + if h.Some? then 0 else 1
    {
      var container, reply := host.CreateContainer(false, owner.Keys);
      if reply.ImageNotFound? {
        var pulled := host.Try();
        if !pulled {
          return None;
        }
        container, reply := host.CreateContainer(true, owner.Keys);
      }
      h := if reply.Created? then Some(container) else None;
    }

    /** `startEndpoint`: the first link end on the node gives the port pair. */
    method StartEndpoint(host: Host, links: seq<Link>, node: Node, base: int) returns (ok: bool)
      requires Owns(host) && node.id !in held.order && node.spec.Shitnet?
      modifies host`next, host`live, host`faults, host`bound, this`held, this`owner
      ensures Owns(host)
      ensures Reached(old(held), held, node.id, false) && (ok ==> Adds(old(held), held, node.id, false))
      ensures ok ==> host.bound == old(host.bound) + Bindings(base, RealizedEnds(Endpoints(links), node))
      ensures host.faults >= old(host.faults)
      ensures ok <==> host.faults == old(host.faults) && EndpointReady(links, node.id, base)
    {
      var k := FirstEndOn(links, node.id);
      if k.None? {
        return false;
      }
      var b := BindingOf(base, k.value);
      assert Bindings(base, [k.value]) == [b];
      if b.local < 1 || b.local > 65535 || b.remote < 1 || b.remote > 65535 {
        return false;
      }
      ok := CreateEndpoint(host, node.id, b);
    }

    method CreateEndpoint(host: Host, n: string, b: Binding) returns (ok: bool)
      requires Owns(host) && n !in held.order
      modifies host`next, host`live, host`faults, host`bound, this`held, this`owner
      ensures Owns(host)
      ensures Reached(old(held), held, n, false) && (ok ==> Adds(old(held), held, n, false))
      ensures ok ==> host.bound == old(host.bound) + [b]
      ensures host.faults >= old(host.faults) && (ok <==> host.faults == old(host.faults))
    {
      var h := host.Acquire(owner.Keys);
      if h.None? {
        return false;
      }
      Track(host, n, h.value, WithEndpoint(held, n, h.value));
      ok := host.StartEndpoint(b);
    }

    /** `startRouter`: one interface per link end on the node. */
    method StartRouter(host: Host, links: seq<Link>, node: Node, base: int) returns (ok: bool)
      requires Owns(host) && node.id !in held.order && node.spec.Dynamips?
      modifies host`next, host`live, host`faults, host`bound, this`held, this`owner
      ensures Owns(host)
      ensures Reached(old(held), held, node.id, false) && (ok ==> Adds(old(held), held, node.id, false))
      ensures ok ==> host.bound == old(host.bound) + Bindings(base, RealizedEnds(Endpoints(links), node))
      ensures host.faults >= old(host.faults)
      ensures ok <==> host.faults == old(host.faults) && RouterReady(links, node, base)
    {
      var plan;
      ok, plan := PlanRouter(links, node, base);
      if ok {
        ok := CreateRouter(host, node.id, BindingsOf(plan));
      }
    }

    /** Creates a router and tracks whatever the manager returned. */
    method CreateRouter(host: Host, n: string, interfaces: seq<Binding>) returns (ok: bool)
      requires Owns(host) && n !in held.order
      modifies host`next, host`live, host`faults, host`bound, this`held, this`owner
      ensures Owns(host)
      ensures Reached(old(held), held, n, false) && (ok ==> Adds(old(held), held, n, false))
      ensures ok ==> host.bound == old(host.bound) + interfaces
      ensures host.faults >= old(host.faults) && (ok <==> host.faults == old(host.faults))
    {
      var h;
      h, ok := host.CreateRouter(interfaces, owner.Keys);
      if h.Some? {
        Track(host, n, h.value, WithRouter(held, n, h.value));
      }
      if ok {
        ok := host.Try();
      }
    }

    /** `startDomain`: directory, bridges and switches per port, then the domain. */
    method StartDomain(host: Host, links: seq<Link>, node: Node, base: int, token: string) returns (ok: bool)
      requires Owns(host) && node.id !in held.order && node.spec.Domain? && Named(host, token, 0)
      requires nextDomainPort <= 65536
      modifies host`next, host`live, host`faults, host`bound, host`interfaces
      modifies this`held, this`nextDomainPort, this`made, this`owner
      ensures Owns(host) && Named(host, token, 0)
      ensures Reached(old(held), held, node.id, false) && (ok ==> Adds(old(held), held, node.id, false))
      ensures ok ==> host.bound == old(host.bound) + Bindings(base, RealizedEnds(Endpoints(links), node))
      ensures host.faults >= old(host.faults) && (ok ==> nextDomainPort == old(nextDomainPort) + |node.ports|)
      ensures ok <==> host.faults == old(host.faults) && old(nextDomainPort) + |node.ports| <= 65536
    {
      ok := MakeDirectory(host, node.id);
      if ok {
        ok := StartDomainPorts(host, links, node, base, token);
      }
      if ok {
        ok := CreateDomain(host, node.id);
      }
    }

    /** The working directory of a domain, tracked at once, with its overlay. */
    method MakeDirectory(host: Host, n: string) returns (ok: bool)
      requires Owns(host) && n !in held.order
      modifies host`next, host`live, host`faults, this`held, this`owner
      ensures Owns(host) && Reached(old(held), held, n, false)
      ensures ok ==> Adds(old(held), held, n, false) && Unfinished(held, n)
      ensures host.faults >= old(host.faults) && (ok <==> host.faults == old(host.faults))
    {
      var directory := host.Acquire(owner.Keys);
      if directory.None? {
        return false;
      }
      Track(host, n, directory.value, WithDirectory(held, n, directory.value));
      ok := host.Try();
    }

    /** The port loop of `startDomain`. */
    method StartDomainPorts(host: Host, links: seq<Link>, node: Node, base: int, token: string) returns (ok: bool)
      requires Owns(host) && Unfinished(held, node.id) && Named(host, token, 0) && nextDomainPort <= 65536
      modifies host`next, host`live, host`faults, host`bound, host`interfaces
      modifies this`held, this`nextDomainPort, this`made, this`owner
      ensures Owns(host) && Named(host, token, 0) && KeepsKeys(old(held), held) && Unfinished(held, node.id)
      ensures ok ==> host.bound == old(host.bound) + Bindings(base, DomainEnds(Endpoints(links), node.id, node.ports))
      ensures host.faults >= old(host.faults) && (ok ==> nextDomainPort == old(nextDomainPort) + |node.ports|)
      ensures ok <==> host.faults == old(host.faults) && old(nextDomainPort) + |node.ports| <= 65536
    {
      ghost var ends := Endpoints(links);
      assert Bindings(base, []) == [] && node.ports[..0] == [];
      ok := true;
      var i := 0;
      while ok && i < |node.ports|
        invariant 0 <= i <= |node.ports|
        invariant Owns(host) && KeepsKeys(old(held), held) && Unfinished(held, node.id) && Named(host, token, 0)
        invariant ok ==> host.bound == old(host.bound) + Bindings(base, DomainEnds(ends, node.id, node.ports[..i]))
        invariant host.faults >= old(host.faults) && (ok ==> nextDomainPort == old(nextDomainPort) + i <= 65536)
        invariant if ok then host.faults == old(host.faults)
                  else host.faults > old(host.faults) || old(nextDomainPort) + |node.ports| > 65536
      {
        ghost var bound := Bindings(base, DomainEnds(ends, node.id, node.ports[..i]));
        ok := StartDomainPort(host, links, node.id, node.ports[i].id, base, token);
        NextPort(base, ends, node, i);
        Regroup(old(host.bound), bound, Bindings(base, Where(ends, AtPort(Endpoint(node.id, node.ports[i].id)))));
        i := i + 1;
      }
      assert node.ports[..|node.ports|] == node.ports;
    }

    /** One pass of the port loop in `startDomain`. */
    method StartDomainPort(host: Host, links: seq<Link>, n: string, port: string, base: int, token: string)
      returns (ok: bool)
      requires Owns(host) && Unfinished(held, n) && Named(host, token, 0)
      modifies host`next, host`live, host`faults, host`bound, host`interfaces
      modifies this`held, this`nextDomainPort, this`made, this`owner
      ensures Owns(host) && Named(host, token, 0) && KeepsKeys(old(held), held) && Unfinished(held, n)
      ensures ok ==> host.bound == old(host.bound) + Bindings(base, Where(Endpoints(links), AtPort(Endpoint(n, port))))
      ensures host.faults >= old(host.faults) && (ok ==> nextDomainPort == old(nextDomainPort) + 1)
      ensures ok <==> host.faults == old(host.faults) && old(nextDomainPort) <= 65535
    {
      ok := AddDomainBridge(host, n, token);
      if ok {
        ok := ConnectDomainPort(host, links, n, port, base);
      }
    }

    /** The bridge of one domain port, named by the run's counter. */
    method AddDomainBridge(host: Host, n: string, token: string) returns (ok: bool)
      requires Owns(host) && Unfinished(held, n) && Named(host, token, 0)
      modifies host`next, host`live, host`faults, host`interfaces, this`held, this`nextDomainPort, this`made, this`owner
      ensures Owns(host) && Named(host, token, 0) && KeepsKeys(old(held), held) && Unfinished(held, n)
      ensures host.faults >= old(host.faults) && (ok ==> nextDomainPort == old(nextDomainPort) + 1)
      ensures ok <==> host.faults == old(host.faults) && old(nextDomainPort) <= 65535
    {
      if nextDomainPort > 65535 {
        return false;
      }
      var link := MakeBridge(host, token);
      if link.None? {
        return false;
      }
      var d := held.domains[n];
      Extend(host, n, link.value, d.(links := d.links + [link.value]));
      ok := host.Try();
    }

    /** Adds the next bridge to the host; its name is spent even on failure. */
    method MakeBridge(host: Host, token: string) returns (link: Option<nat>)
      requires host.Accounts(owner.Keys) && Named(host, token, 0) && nextDomainPort <= 65535
      modifies host`next, host`live, host`faults, host`interfaces, this`nextDomainPort, this`made
      ensures Named(host, token, 0) && nextDomainPort == old(nextDomainPort) + 1
      ensures host.Accounts(if link.Some? then owner.Keys + {link.value} else owner.Keys)
      ensures link.Some? ==> link.value !in owner
      ensures host.faults == old(host.faults) + if link.Some? then 0 else 1
    {
      var c, after := nextDomainPort, nextDomainPort + 1;
      NextBridgeName(token, made, host.interfaces, c, after);
      nextDomainPort := after;
      link := AddNamed(host, BridgeName(token, c), token, c);
    }

    /** Adds a bridge under a name that is next in line. */
    method AddNamed(host: Host, name: string, ghost token: string, ghost c: nat) returns (link: Option<nat>)
      requires host.Accounts(owner.Keys) && Named(host, token, 0)
      requires NamesMade(token, made + [DomainBridge(c)], host.interfaces + [name], nextDomainPort, 0)
      modifies host`next, host`live, host`faults, host`interfaces, this`made
      ensures Named(host, token, 0)
      ensures host.Accounts(if link.Some? then owner.Keys + {link.value} else owner.Keys)
      ensures link.Some? ==> link.value !in owner
      ensures host.faults == old(host.faults) + if link.Some? then 0 else 1
    {
      link := host.AddLink(name, owner.Keys);
      if link.Some? {
        made := made + [DomainBridge(c)];
      }
    }

    /** Connects every link end on one port of a domain. */
    method ConnectDomainPort(host: Host, links: seq<Link>, n: string, port: string, base: int) returns (ok: bool)
      requires Owns(host) && Unfinished(held, n)
      modifies host`next, host`live, host`faults, host`bound, this`held, this`owner
      ensures Owns(host) && KeepsKeys(old(held), held) && Unfinished(held, n)
      ensures ok ==> host.bound == old(host.bound) + Bindings(base, Where(Endpoints(links), AtPort(Endpoint(n, port))))
      ensures host.faults >= old(host.faults) && (ok <==> host.faults == old(host.faults))
    {
      ghost var ends, p := Endpoints(links), AtPort(Endpoint(n, port));
      assert ends[..0] == [] && BoundBelow(base, ends, p, 0) == [];
      ok := true;
      var k := 0;
      while ok && k < 2 * |links|
        invariant 0 <= k <= 2 * |links|
        invariant Owns(host) && KeepsKeys(old(held), held) && Unfinished(held, n)
        invariant host.faults >= old(host.faults) && (ok <==> host.faults == old(host.faults))
        invariant ok ==> host.bound == old(host.bound) + BoundBelow(base, ends, p, k)
      {
        BoundBelowNext(base, ends, p, k);
        Regroup(old(host.bound), BoundBelow(base, ends, p, k), [BindingOf(base, k)]);
        if EndAt(links, k) == Endpoint(n, port) {
          ok := ConnectEnd(host, n, BindingOf(base, k));
        }
        k := k + 1;
      }
      assert ends[..2 * |links|] == ends;
    }

    method ConnectEnd(host: Host, n: string, b: Binding) returns (ok: bool)
      requires Owns(host) && Unfinished(held, n)
      modifies host`next, host`live, host`faults, host`bound, this`held, this`owner
      ensures Owns(host) && KeepsKeys(old(held), held) && Unfinished(held, n)
      ensures host.bound == old(host.bound) + if ok then [b] else []
      ensures host.faults >= old(host.faults) && (ok <==> host.faults == old(host.faults))
    {
      var h := host.Connect(b, owner.Keys);
      if h.None? {
        return false;
      }
      var d := held.domains[n];
      Extend(host, n, h.value, d.(switches := d.switches + [h.value]));
      ok := true;
    }

    /** The domain manager's `Create`: leases and domain, kept even on failure. */
    method CreateDomain(host: Host, n: string) returns (ok: bool)
      requires Owns(host) && Unfinished(held, n)
      modifies host`next, host`live, host`faults, this`held, this`owner
      ensures Owns(host)
      ensures KeepsKeys(old(held), held)
      ensures host.faults >= old(host.faults) && (ok <==> host.faults == old(host.faults))
    {
      var prepared := host.Acquire(owner.Keys);
      if prepared.None? {
        return false;
      }
      var d := held.domains[n];
      Extend(host, n, prepared.value, d.(prepared := prepared));
      ok := FinishDomain(host, n);
    }

    method FinishDomain(host: Host, n: string) returns (ok: bool)
      requires Owns(host) && n in held.domains && held.domains[n].id.None?
      modifies host`next, host`live, host`faults, this`held, this`owner
      ensures Owns(host) && KeepsKeys(old(held), held)
      ensures host.faults >= old(host.faults) && (ok <==> host.faults == old(host.faults))
    {
      var created := host.Acquire(owner.Keys);
      if created.None? {
        return false;
      }
      var d := held.domains[n];
      Extend(host, n, created.value, d.(id := created));
      RenameDomain(held, owner, n, created.value);
      assert NodeShaped(held, n);
      held := held.(nodes := held.nodes[n := created.value]);
      ok := host.Try();
    }

    /** What holds throughout the node loop, whether or not the last node failed. */
    ghost predicate Underway(host: Host, nodes: seq<Node>, token: string)
      reads `held, `owner, `made, `nextDomainPort
      reads host`next, host`live, host`abandoned, host`interfaces, host`calls
    {
      && Owns(host) && Named(host, token, 0) && host.Explained()
      && held.bridges == [] && Within(held, nodes) && (host.NoneCreated() ==> held.providers == map[])
    }

    /** The node loop of `start`. */
    method StartNodes(host: Host, t: Topology, options: HostOptions, token: string) returns (ok: bool)
      requires NodesValid(t.nodes) && Underway(host, t.nodes, token) && held == NOTHING_HELD && host.bound == []
      requires nextDomainPort == 0
      modifies host, this
      ensures Underway(host, t.nodes, token)
      ensures AsksFirst(t.nodes, options) ==> host.calls > old(host.calls)
      ensures ok ==> Follows(held, t.nodes)
      ensures ok ==> host.bound == Bindings(BasePort(options), StartedEnds(Endpoints(t.links), t.nodes))
      ensures host.faults >= old(host.faults) && (ok <==> host.faults == old(host.faults) && Ready(t, options))
    {
      NothingFollows(BasePort(options), Endpoints(t.links), t.nodes);
      ok := true;
      var i := 0;
      while ok && i < |t.nodes|
        invariant 0 <= i <= |t.nodes| && (ok || i > 0)
        invariant Underway(host, t.nodes, token)
        invariant host.calls >= old(host.calls)
        invariant i > 0 && AsksFirst(t.nodes, options) ==> host.calls > old(host.calls)
        invariant ok ==> Follows(held, t.nodes[..i])
        invariant ok ==> host.bound == StartedBindings(t, options, i)
        invariant host.faults >= old(host.faults)
        invariant if ok then host.faults == old(host.faults) && ReadySoFar(t, options, i, nextDomainPort)
                  else host.faults > old(host.faults) || !Ready(t, options)
      {
        ok := StartNext(host, t, options, token, i);
        i := i + 1;
      }
      assert t.nodes[..|t.nodes|] == t.nodes;
    }

    /** One pass of the node loop. */
    method StartNext(host: Host, t: Topology, options: HostOptions, token: string, i: nat) returns (ok: bool)
      requires NodesValid(t.nodes) && i < |t.nodes|
      requires Underway(host, t.nodes, token) && Follows(held, t.nodes[..i]) && ReadySoFar(t, options, i, nextDomainPort)
      requires host.bound == StartedBindings(t, options, i)
      modifies host, this
      ensures Underway(host, t.nodes, token) && host.calls >= old(host.calls) && host.faults >= old(host.faults)
      ensures AsksFirst([t.nodes[i]], options) ==> host.calls > old(host.calls)
      ensures ok ==> Follows(held, t.nodes[..i + 1]) && host.bound == StartedBindings(t, options, i + 1)
      ensures if ok then host.faults == old(host.faults) && ReadySoFar(t, options, i + 1, nextDomainPort)
              else host.faults > old(host.faults) || !Ready(t, options)
    {
      NewId(held, t.nodes, i);
      ReadyNext(t, options, i, nextDomainPort);
      NodeBound(BasePort(options), Endpoints(t.links), t.nodes, i);
      ghost var before := held;
      ok := StartNode(host, t.links, t.nodes[i], options, token);
      NodeReached(before, held, t.nodes, i, ok);
    }

    /** One node, by the kind of its workload. */
    method StartNode(host: Host, links: seq<Link>, node: Node, options: HostOptions, token: string) returns (ok: bool)
      requires Owns(host) && Named(host, token, 0) && host.Explained() && node.id !in held.order
      requires nextDomainPort <= 65536
      modifies host`calls, host`next, host`live, host`abandoned, host`faults, host`bound, host`interfaces
      modifies this`held, this`nextDomainPort, this`made, this`owner
      ensures host.faults >= old(host.faults)
      ensures ok <==> host.faults == old(host.faults) && NodeReady(links, node, options)
                      && old(nextDomainPort) + PortsTaken(node) <= 65536
      ensures ok ==> nextDomainPort == old(nextDomainPort) + PortsTaken(node)
      ensures Owns(host) && Named(host, token, 0) && host.Explained() && host.calls >= old(host.calls)
      ensures AsksFirst([node], options) ==> host.calls > old(host.calls)
      ensures host.NoneCreated() ==> held.providers.Keys == old(held).providers.Keys
      ensures Reached(old(held), held, node.id, node.spec.Container?)
      ensures ok ==> Adds(old(held), held, node.id, node.spec.Container?)
      ensures ok ==> host.bound == old(host.bound) + Bindings(BasePort(options), RealizedEnds(Endpoints(links), node))
    {
      if !node.spec.Container? && !node.spec.Unsupported? {
        ok := StartRealized(host, links, node, options, token);
        return;
      }
      if node.spec.Unsupported? || node.spec.provider !in options.containers {
        return false;
      }
      assert Bindings(BasePort(options), []) == [];
      ok := StartContainer(host, node.id, node.spec.provider);
    }

    /** A node that a realizer of its own connects. */
    method StartRealized(host: Host, links: seq<Link>, node: Node, options: HostOptions, token: string) returns (ok: bool)
      requires Owns(host) && Named(host, token, 0) && node.id !in held.order && nextDomainPort <= 65536
      requires !node.spec.Container? && !node.spec.Unsupported?
      modifies host`next, host`live, host`faults, host`bound, host`interfaces
      modifies this`held, this`nextDomainPort, this`made, this`owner
      ensures Owns(host) && Named(host, token, 0) && host.faults >= old(host.faults)
      ensures ok <==> host.faults == old(host.faults) && NodeReady(links, node, options)
                      && old(nextDomainPort) + PortsTaken(node) <= 65536
      ensures ok ==> nextDomainPort == old(nextDomainPort) + PortsTaken(node)
      ensures Reached(old(held), held, node.id, false) && (ok ==> Adds(old(held), held, node.id, false))
      ensures ok ==> host.bound == old(host.bound) + Bindings(BasePort(options), RealizedEnds(Endpoints(links), node))
    {
      match node.spec {
        case Domain(_) => ok := StartDomain(host, links, node, BasePort(options), token);
        case Shitnet(_, _) => ok := StartEndpoint(host, links, node, BasePort(options));
        case Dynamips(_, _) => ok := StartRouter(host, links, node, BasePort(options));
      }
    }

    /** The link loop of `start`: a bridge for every end left over. */
    method StartBridges(host: Host, t: Topology, base: int, token: string) returns (ok: bool)
      requires Owns(host) && Named(host, token, 0) && Follows(held, t.nodes)
      requires 2 * |t.links| <= 65536
      modifies host`next, host`live, host`faults, host`bound, host`interfaces, this`held, this`made, this`owner
      ensures Owns(host) && Named(host, token, 2 * |t.links|)
      ensures held == old(held).(bridges := held.bridges) && |held.bridges| <= |old(held).bridges| + 2 * |t.links|
      ensures ok ==> host.bound == old(host.bound) + Bindings(base, Where(Endpoints(t.links), LeftToBridges(t.nodes)))
      ensures host.faults >= old(host.faults) && (ok <==> host.faults == old(host.faults))
    {
      ghost var ends, p := Endpoints(t.links), LeftToBridges(t.nodes);
      assert ends[..0] == [] && BoundBelow(base, ends, p, 0) == [];
      ok := true;
      var k := 0;
      while ok && k < 2 * |t.links|
        invariant 0 <= k <= 2 * |t.links|
        invariant Owns(host) && Named(host, token, k) && held == old(held).(bridges := held.bridges)
        invariant |held.bridges| <= |old(held).bridges| + k
        invariant host.faults >= old(host.faults) && (ok <==> host.faults == old(host.faults))
        invariant ok ==> host.bound == old(host.bound) + BoundBelow(base, ends, p, k)
      {
        BoundBelowNext(base, ends, p, k);
        BridgesKeepNodes(old(held), held.bridges, t.nodes);
        ok := ConnectLeftOver(host, t, base, token, k);
        k := k + 1;
      }
      NamesBelow(token, made, host.interfaces, nextDomainPort, nextDomainPort, k, 2 * |t.links|);
      assert ends[..2 * |t.links|] == ends;
    }

    /** One pass of the link loop: an end that its node's realizer has connected
        is passed over. */
    method ConnectLeftOver(host: Host, t: Topology, base: int, token: string, k: nat) returns (ok: bool)
      requires Owns(host) && Named(host, token, k) && Follows(held, t.nodes) && k < 2 * |t.links| <= 65536
      modifies host`next, host`live, host`faults, host`bound, host`interfaces, this`held, this`made, this`owner
      ensures Owns(host) && Named(host, token, k + 1) && held == old(held).(bridges := held.bridges)
      ensures |held.bridges| <= |old(held).bridges| + 1
      ensures host.faults >= old(host.faults) && (ok <==> host.faults == old(host.faults))
      ensures ok ==> host.bound == old(host.bound)
                                   + if HasRealizer(t.nodes, EndAt(t.links, k).node) then [] else [BindingOf(base, k)]
    {
      var id := EndAt(t.links, k).node;
      assert Matches(held, t.nodes, id);
      if id in held.domains || id in held.endpoints || id in held.routers {
        NamesBelow(token, made, host.interfaces, nextDomainPort, nextDomainPort, k, k + 1);
        return true;
      }
      ok := StartBridge(host, base, token, k);
    }

    method StartBridge(host: Host, base: int, token: string, k: nat) returns (ok: bool)
      requires Owns(host) && Named(host, token, k) && k <= 65535
      modifies host`next, host`live, host`faults, host`bound, host`interfaces, this`held, this`made, this`owner
      ensures Owns(host) && Named(host, token, k + 1) && held == old(held).(bridges := held.bridges)
      ensures |held.bridges| <= |old(held).bridges| + 1
      ensures host.faults >= old(host.faults) && (ok <==> host.faults == old(host.faults))
      ensures host.bound == old(host.bound) + if ok then [BindingOf(base, k)] else []
    {
      NamesBelow(token, made, host.interfaces, nextDomainPort, nextDomainPort, k, k + 1);
      var alive := host.Try();
      if !alive {
        return false;
      }
      var h := host.StartBridge(BindingOf(base, k), HostName(token, k), owner.Keys);
      if h.None? {
        return false;
      }
      TrackBridge(held, owner, h.value);
      owner := owner[h.value := None];
      held := held.(bridges := held.bridges + [h.value]);
      MakePair(token, made, old(host.interfaces), nextDomainPort, k);
      made := made + [HostSide(k), PeerSide(k)];
      ok := true;
    }

    // ---------------------------------------------------------- closing

    /** `Close`: bridges from the last, then nodes from the last tracked. What
        cannot be deleted stays tracked for the next call; an error is returned
        exactly when something stays. */
    method Close(host: Host) returns (ok: bool)
      requires Owns(host)
      modifies host`live, host`faults, host`attempts, this`held, this`owner
      ensures Owns(host) && owner.Keys <= old(owner).Keys
      ensures ok <==> owner == map[]
      ensures ok ==> held == NOTHING_HELD.(order := old(held).order, providers := old(held).providers)
      ensures held.order == old(held).order && held.providers == old(held).providers
      ensures |held.bridges| <= |old(held).bridges|
      ensures host.faults >= old(host.faults) && (ok <==> host.faults == old(host.faults))
      ensures host.attempts == old(host.attempts) + Reversed(old(held).bridges)
                               + NodesTries(old(held), held, held.order, 0)
    {
      var bridgesOk := CloseBridges(host);
      ghost var middle := held;
      var nodesOk := CloseNodes(host);
      TriesIgnoreBridges(middle, old(held), held, held.order, 0);
      ok := bridgesOk && nodesOk;
      if ok {
        NothingLeft(held, owner);
      } else {
        SomethingLeft(held, owner);
      }
    }

    method CloseBridges(host: Host) returns (ok: bool)
      requires Owns(host)
      modifies host`live, host`faults, host`attempts, this`held, this`owner
      ensures Owns(host) && owner.Keys <= old(owner).Keys
      ensures held == old(held).(bridges := held.bridges) && (ok <==> held.bridges == [])
      ensures |held.bridges| <= |old(held).bridges|
      ensures host.faults >= old(host.faults) && (ok <==> host.faults == old(host.faults))
      ensures host.attempts == old(host.attempts) + Reversed(old(held).bridges)
    {
      ghost var all := held.bridges;
      assert all[|all|..] == [];
      ok := true;
      var index := |held.bridges|;
      while index > 0
        invariant 0 <= index <= |held.bridges|
        invariant Owns(host) && owner.Keys <= old(owner).Keys
        invariant held == old(held).(bridges := held.bridges) && (ok <==> |held.bridges| == index)
        invariant |held.bridges| <= |old(held).bridges|
        invariant index <= |all| && held.bridges[..index] == all[..index]
        invariant host.faults >= old(host.faults) && (ok <==> host.faults == old(host.faults))
        invariant host.attempts == old(host.attempts) + Reversed(all[index..])
      {
        index := index - 1;
        var h := held.bridges[index];
        assert h == held.bridges[..index + 1][index] == all[index];
        ReversedNext(all, index);
        ForgetBridge(held, owner, index);
        var closed := host.Delete(h, owner.Keys);
        if closed {
          owner := owner - {h};
          held := held.(bridges := held.bridges[..index] + held.bridges[index + 1..]);
        } else {
          ok := false;
        }
      }
    }

    method CloseNodes(host: Host) returns (ok: bool)
      requires Owns(host)
      modifies host`live, host`faults, host`attempts, this`held, this`owner
      ensures Owns(host) && owner.Keys <= old(owner).Keys
      ensures held == old(held).(nodes := held.nodes, domains := held.domains, routers := held.routers,
                                 endpoints := held.endpoints)
      ensures ok <==> held.nodes == map[]
      ensures host.faults >= old(host.faults) && (ok <==> host.faults == old(host.faults))
      ensures host.attempts == old(host.attempts) + NodesTries(old(held), held, held.order, 0)
    {
      ghost var first := held;
      ok := true;
      var index := |held.order|;
      NothingClosed(first);
      while index > 0
        invariant 0 <= index <= |held.order|
        invariant Owns(host) && owner.Keys <= old(owner).Keys
        invariant ClosedFrom(first, held, index, ok)
        invariant host.faults >= old(host.faults) && (ok <==> host.faults == old(host.faults))
        invariant host.attempts == old(host.attempts) + NodesTries(first, held, held.order, index)
      {
        index := index - 1;
        ghost var before := held;
        var closed := CloseAt(host, index);
        CloseStep(first, before, held, index, ok, closed, old(host.attempts));
        ok := ok && closed;
      }
      AllClosed(first, held, owner, ok);
    }

    /** One pass of the node loop of `Close`. */
    method CloseAt(host: Host, index: nat) returns (closed: bool)
      requires Owns(host) && index < |held.order|
      modifies host`live, host`faults, host`attempts, this`held, this`owner
      ensures Owns(host) && owner.Keys <= old(owner).Keys
      ensures if closed then held == WithoutNode(old(held), old(held).order[index])
              else held == Kept(old(held), held, old(held).order[index]) && old(held).order[index] in held.nodes
      ensures host.faults >= old(host.faults) && (closed <==> host.faults == old(host.faults))
      ensures host.attempts == old(host.attempts) + NodeTries(old(held), held, old(held).order[index])
    {
      if held.order[index] !in held.nodes {
        assert NodeShaped(held, held.order[index]);
        assert held == WithoutNode(held, held.order[index]);
        return true;
      }
      closed := CloseNode(host, held.order[index]);
    }

    /** One node of `Close`. */
    method CloseNode(host: Host, n: string) returns (ok: bool)
      requires Owns(host) && n in held.nodes
      modifies host`live, host`faults, host`attempts, this`held, this`owner
      ensures Owns(host) && owner.Keys <= old(owner).Keys
      ensures ok ==> held == WithoutNode(old(held), n)
      ensures !ok ==> held == Kept(old(held), held, n) && n in held.nodes
      ensures host.faults >= old(host.faults) && (ok <==> host.faults == old(host.faults))
      ensures host.attempts == old(host.attempts) + NodeTries(old(held), held, n)
    {
      if n in held.domains {
        ok := CloseDomainNode(host, n);
        return;
      }
      var h := if n in held.routers then held.routers[n] else held.nodes[n];
      ForgetNode(held, owner, n);
      ok := host.Delete(h, owner.Keys);
      if ok {
        owner := owner - {h};
        held := WithoutNode(held, n);
      }
    }

    method CloseDomainNode(host: Host, n: string) returns (ok: bool)
      requires Owns(host) && n in held.domains
      modifies host`live, host`faults, host`attempts, this`held, this`owner
      ensures Owns(host) && owner.Keys <= old(owner).Keys
      ensures ok ==> held == WithoutNode(old(held), n)
      ensures !ok ==> held == Kept(old(held), held, n) && n in held.nodes
      ensures host.faults >= old(host.faults) && (ok <==> host.faults == old(host.faults))
      ensures host.attempts == old(host.attempts) + NodeTries(old(held), held, n)
    {
      ghost var parts := DomainParts(held.domains[n]);
      assert NodeShaped(held, n);
      ForgetNode(held, owner, n);
      ghost var others := owner.Keys - parts;
      assert others + parts == owner.Keys;
      var rest;
      rest, ok := CloseDomain(host, held.domains[n], others);
      if ok {
        owner := owner - parts;
        held := WithoutNode(held, n);
        assert others + {} == owner.Keys;
      } else {
        ShrinkDomain(held, owner, n, rest);
        assert others + DomainParts(rest) == (owner - (parts - DomainParts(rest))).Keys;
        owner := owner - (parts - DomainParts(rest));
        held := WithDomain(held, n, rest);
      }
    }
  }

  /** `Start`. On success the handle owns everything that was created. A nil
      handle means that nothing tracked is left, and then nothing at all is left
      exactly when no create call returned a container together with an error; a
      handle with an error means that something tracked is left. */
  method Start(host: Host, t: Topology, options: HostOptions, token: string) returns (run: Running?, ok: bool)
    requires host.Fresh() && IsToken(token)
    modifies host
    ensures run != null ==> fresh(run) && run.Owns(host) && Within(run.held, t.nodes)
    ensures run != null ==> |run.held.bridges| <= 2 * |t.links| && (host.NoneCreated() ==> run.held.providers == map[])
    ensures ok <==> ValidTopology(t) && Supported(t, options) && Startable(t) && host.faults == 0
    ensures ok ==> run != null && Follows(run.held, t.nodes) && WellBound(t, BasePort(options), host.bound)
    ensures run == null ==> host.live == host.abandoned && (host.live == {} <==> host.NoStray())
    ensures run != null && !ok ==> host.live != host.abandoned
    ensures NamesGood(host.interfaces)
    ensures ValidTopology(t) && Supported(t, options) && !options.dynamips && AsksFirst(t.nodes, options) ==> host.calls > 0
  {
    var defect := Validate(t);
    if defect.Some? {
      return null, false;
    }
    ok := ValidateSupport(t, options);
    if !ok {
      return null, false;
    }
    if options.dynamips {
      var managed := host.Try();
      if !managed {
        return null, false;
      }
    }
    run, ok := Launch(host, t, options, token);
  }

  /** `Start` once the topology is accepted: start, or roll back. */
  method Launch(host: Host, t: Topology, options: HostOptions, token: string) returns (run: Running?, ok: bool)
    requires host.Fresh() && IsToken(token) && ValidTopology(t) && Supported(t, options)
    modifies host
    ensures run != null ==> fresh(run) && run.Owns(host) && Within(run.held, t.nodes)
    ensures run != null ==> |run.held.bridges| <= 2 * |t.links| && (host.NoneCreated() ==> run.held.providers == map[])
    ensures ok ==> run != null && Follows(run.held, t.nodes) && WellBound(t, BasePort(options), host.bound)
    ensures run == null ==> host.live == host.abandoned && (host.live == {} <==> host.NoStray())
    ensures run != null && !ok ==> host.live != host.abandoned
    ensures NamesGood(host.interfaces)
    ensures AsksFirst(t.nodes, options) ==> host.calls > 0
    ensures ok <==> Startable(t) && host.faults == 0
  {
    ReadyIsStartable(t, options);
    run := new Running();
    ok := StartRun(run, host, t, options, token);
    if ok {
      return;
    }
    ghost var before := run.held;
    var closed := run.Close(host);
    WithinAfterClose(before, run.held, t.nodes);
    if closed {
      run := null;
    }
  }

  /** `Running.start`. */
  method StartRun(run: Running, host: Host, t: Topology, options: HostOptions, token: string) returns (ok: bool)
    requires ValidTopology(t) && Supported(t, options) && IsToken(token)
    requires run.Owns(host) && run.held == NOTHING_HELD && run.made == [] && run.nextDomainPort == 0
    requires host.Explained() && host.bound == [] && host.interfaces == []
    modifies run, host
    ensures run.Owns(host) && host.Explained() && NamesGood(host.interfaces)
    ensures Within(run.held, t.nodes) && |run.held.bridges| <= 2 * |t.links|
    ensures host.NoneCreated() ==> run.held.providers == map[]
    ensures AsksFirst(t.nodes, options) ==> host.calls > old(host.calls)
    ensures ok ==> Follows(run.held, t.nodes) && WellBound(t, BasePort(options), host.bound)
    ensures host.faults >= old(host.faults) && (ok <==> host.faults == old(host.faults) && Ready(t, options))
  {
    NothingNamed(run, host, token);
    NothingFollows(0, [], t.nodes);
    ok := run.StartNodes(host, t, options, token);
    ghost var end := 0;
    if ok {
      ghost var before := run.held;
      ok := run.StartBridges(host, t, BasePort(options), token);
      end := 2 * |t.links|;
      BridgesKeepNodes(before, run.held.bridges, t.nodes);
    }
    MadeNamesAreGood(token, run.made, host.interfaces, run.nextDomainPort, end);
    if ok {
      StartedIsWellBound(t, options, host.bound);
    }
  }

  /** A whole run, or the retry after a start that could not be rolled back. A nil
      error from `Close` leaves nothing and empties every map but one: `providers`
      keeps an entry for each container that was reached, so it is empty exactly
      when no node that was tracked is a container. */
  method StartAndClose(host: Host, t: Topology, options: HostOptions, token: string)
    returns (run: Running?, started: bool, closed: bool)
    requires host.Fresh() && IsToken(token)
    modifies host
    ensures closed ==> run != null && host.live == host.abandoned
    ensures host.faults == 0 && ValidTopology(t) && Supported(t, options) && Startable(t) ==> started && closed
    ensures closed ==> run.held == NOTHING_HELD.(order := run.held.order, providers := run.held.providers)
    ensures closed ==> |run.held.order| <= |t.nodes| && (started ==> |run.held.order| == |t.nodes|)
    ensures closed ==> (run.held.providers == map[] <==>
                        forall i :: 0 <= i < |run.held.order| ==> !t.nodes[i].spec.Container?)
  {
    run, started := Start(host, t, options, token);
    if run == null {
      return run, false, false;
    }
    ContainersLeaveProviders(run.held, t.nodes);
    closed := run.Close(host);
  }

  lemma ContainersLeaveProviders(held: Holdings, nodes: seq<Node>)
    requires Within(held, nodes)
    ensures held.providers == map[] <==> forall i :: 0 <= i < |held.order| ==> !nodes[i].spec.Container?
  {
    var reached := nodes[..|held.order|];
    forall i | 0 <= i < |reached| && reached[i].spec.Container? ensures reached[i].id in held.providers {
      HasContainerAt(reached, reached[i].id);
      assert Provides(held, reached, reached[i].id);
    }
    forall id | id in held.providers ensures exists i :: 0 <= i < |reached| && reached[i].spec.Container? {
      HasContainerAt(reached, id);
      assert Provides(held, reached, id);
    }
  }

  /** A start that leaves something behind a nil handle: the provider answers the
      only create call with a container and an error. */
  method StrayContainerIsLeft() returns (host: Host, run: Running?)
    ensures run == null && host.live != {} && host.replies(0) == CreateFailed(true)
  {
    host := new Host(_ => CreateFailed(true));
    var node := Node("a", Container("docker", "image", []), []);
    var t, options := Topology("lab", [node], [], []), HostOptions(0, {"docker"}, false, false, false);
    assert t.nodes[0] == node;
    assert ValidTopology(t) && Supported(t, options);
    var ok;
    run, ok := Start(host, t, options, "00000000");
    assert Strays(host.replies(0));
    if run != null {
      NothingTracked(run.held, run.owner, node);
    }
  }

  /** A run whose maps are not all empty after a nil-error `Close`: `providers`
      still answers for its only container. */
  method ProvidersOutliveClose() returns (host: Host, run: Running?, started: bool, closed: bool)
    ensures host.faults == 0 ==> started && closed
    ensures started && closed ==> run != null && run.held.nodes == map[] && run.held.providers != map[]
  {
    host := new Host(_ => Created);
    var node := Node("a", Container("docker", "image", []), []);
    var t, options := Topology("lab", [node], [], []), HostOptions(0, {"docker"}, false, false, false);
    assert t.nodes[0] == node;
    assert ValidTopology(t) && Supported(t, options);
    OneContainerStarts(t, node);
    run, started, closed := StartAndClose(host, t, options, "00000000");
    if started && closed {
      assert t.nodes[0].spec.Container?;
      assert !(forall i :: 0 <= i < |run.held.order| ==> !t.nodes[i].spec.Container?);
    }
  }

  lemma OneContainerStarts(t: Topology, node: Node)
    requires t.nodes == [node] && node.spec.Container?
    ensures Startable(t)
  {
    assert [node][..0] == [] && DomainPorts([]) == 0;
    forall i | 0 <= i < |t.nodes| ensures NodeStartable(t.links, t.nodes[i]) {
      assert t.nodes[i] == node;
    }
  }

  /** A run that reached no container of a one-container topology tracks nothing. */
  lemma NothingTracked(held: Holdings, owner: Ledger, node: Node)
    requires Tidy(held, owner) && Within(held, [node]) && node.spec.Container?
    requires held.providers == map[] && held.bridges == []
    ensures owner == map[] && !Follows(held, [node])
  {
    HasContainerAt([node], node.id);
    assert [node][..1] == [node] && [node][0] == node;
    var reached := [node][..|held.order|];
    assert Provides(held, reached, node.id);
    forall n ensures n !in held.nodes {
      assert NodeShaped(held, n);
    }
    NothingLeft(held, owner);
  }

  // ------------------------------------------------------------ what a start tracks

  ghost function NodeIds(nodes: seq<Node>): (ids: seq<string>)
    ensures |ids| == |nodes|
  {
    if nodes == [] then [] else NodeIds(nodes[..|nodes| - 1]) + [nodes[|nodes| - 1].id]
  }

  ghost predicate HasContainer(nodes: seq<Node>, id: string) {
    nodes != [] && var n := |nodes| - 1;
                   ((nodes[n].id == id && nodes[n].spec.Container?) || HasContainer(nodes[..n], id))
  }

  lemma {:induction false} HasContainerAt(nodes: seq<Node>, id: string)
    ensures HasContainer(nodes, id) <==> exists i :: 0 <= i < |nodes| && nodes[i].id == id && nodes[i].spec.Container?
    decreases |nodes|
  {
    if nodes != [] {
      var front := nodes[..|nodes| - 1];
      HasContainerAt(front, id);
      assert forall i :: 0 <= i < |front| ==> front[i] == nodes[i];
    }
  }

  lemma {:induction false} NodeIdsAt(nodes: seq<Node>, id: string)
    ensures id in NodeIds(nodes) <==> exists i :: 0 <= i < |nodes| && nodes[i].id == id
    decreases |nodes|
  {
    if nodes != [] {
      var front := nodes[..|nodes| - 1];
      NodeIdsAt(front, id);
      assert forall i :: 0 <= i < |front| ==> front[i] == nodes[i];
    }
  }

  ghost predicate Provides(held: Holdings, nodes: seq<Node>, id: string) {
    id in held.providers <==> HasContainer(nodes, id)
  }

  /** The nodes tracked so far are the first ones of the topology, and
      `providers` lists the containers among them. */
  ghost predicate Within(held: Holdings, nodes: seq<Node>) {
    && |held.order| <= |nodes| && held.order == NodeIds(nodes[..|held.order|])
    && forall id :: Provides(held, nodes[..|held.order|], id)
  }

  ghost predicate Matches(held: Holdings, nodes: seq<Node>, id: string) {
    && (id in held.nodes <==> id in held.order)
    && (id in Realized(held) <==> HasRealizer(nodes, id))
  }

  /** The tracked nodes are those of the topology, by kind. */
  ghost predicate Follows(held: Holdings, nodes: seq<Node>) {
    && held.order == NodeIds(nodes)
    && (forall id :: Provides(held, nodes, id))
    && (forall id :: Matches(held, nodes, id))
  }

  /** The first node asks a provider for a container. */
  ghost predicate AsksFirst(nodes: seq<Node>, options: HostOptions) {
    nodes != [] && nodes[0].spec.Container? && nodes[0].spec.provider in options.containers
  }

  lemma NothingFollows(base: int, ends: seq<Endpoint>, nodes: seq<Node>)
    ensures Follows(NOTHING_HELD, nodes[..0]) && Within(NOTHING_HELD, nodes)
    ensures Bindings(base, StartedEnds(ends, nodes[..0])) == []
  {
    assert nodes[..0] == [];
    forall id ensures Provides(NOTHING_HELD, [], id) && Matches(NOTHING_HELD, [], id) {
    }
  }

  lemma NothingNamed(run: Running, host: Host, token: string)
    requires run.made == [] && host.interfaces == []
    ensures run.Named(host, token, 0)
  {
    forall i: nat ensures NameMade(token, run.made, host.interfaces, run.nextDomainPort, 0, i) {
    }
  }

  lemma NewId(held: Holdings, nodes: seq<Node>, i: nat)
    requires NodesValid(nodes) && i < |nodes| && Follows(held, nodes[..i])
    ensures nodes[i].id !in held.order
  {
    NodeIdsAt(nodes[..i], nodes[i].id);
  }

  /** The listeners of the realizers of the first `i` nodes. */
  ghost function StartedBindings(t: Topology, options: HostOptions, i: nat): seq<Binding>
    requires i <= |t.nodes|
  {
    Bindings(BasePort(options), StartedEnds(Endpoints(t.links), t.nodes[..i]))
  }

  /** A node that was reached extends the run; one that was started follows. */
  lemma NodeReached(before: Holdings, after: Holdings, nodes: seq<Node>, i: nat, ok: bool)
    requires i < |nodes| && Follows(before, nodes[..i])
    requires Reached(before, after, nodes[i].id, nodes[i].spec.Container?)
    requires ok ==> Adds(before, after, nodes[i].id, nodes[i].spec.Container?)
    ensures Within(after, nodes) && (ok ==> Follows(after, nodes[..i + 1]))
  {
    var front, longer := nodes[..i], nodes[..i + 1];
    assert longer[..i] == front && longer[i] == nodes[i];
    assert |before.order| == i;
    var reached := if |after.order| == i then front else longer;
    forall id ensures Provides(after, reached, id) {
      assert Provides(before, front, id);
    }
    if ok {
      forall id ensures Matches(after, longer, id) {
        assert Matches(before, front, id);
        assert id in after.order <==> id in before.order || id == nodes[i].id;
      }
    }
  }

  lemma NodeBound(base: int, ends: seq<Endpoint>, nodes: seq<Node>, i: nat)
    requires i < |nodes|
    ensures Bindings(base, StartedEnds(ends, nodes[..i + 1])) ==
            Bindings(base, StartedEnds(ends, nodes[..i])) + Bindings(base, RealizedEnds(ends, nodes[i]))
  {
    assert nodes[..i + 1][..i] == nodes[..i];
    BindingsAppend(base, StartedEnds(ends, nodes[..i]), RealizedEnds(ends, nodes[i]));
  }

  lemma WithinAfterClose(before: Holdings, after: Holdings, nodes: seq<Node>)
    requires Within(before, nodes) && after.order == before.order && after.providers == before.providers
    ensures Within(after, nodes)
  {
    var reached := nodes[..|after.order|];
    forall id ensures Provides(after, reached, id) {
      assert Provides(before, reached, id);
    }
  }

  /** Following and reaching do not depend on the bridges. */
  lemma BridgesKeepNodes(held: Holdings, bridges: seq<nat>, nodes: seq<Node>)
    requires Follows(held, nodes)
    ensures Follows(held.(bridges := bridges), nodes) && Within(held.(bridges := bridges), nodes)
  {
    var now := held.(bridges := bridges);
    assert nodes[..|nodes|] == nodes;
    forall id ensures Provides(now, nodes, id) && Matches(now, nodes, id) {
      assert Provides(held, nodes, id) && Matches(held, nodes, id);
    }
  }

  lemma StartedIsWellBound(t: Topology, options: HostOptions, bound: seq<Binding>)
    requires ValidTopology(t) && Supported(t, options)
    requires var base, ends := BasePort(options), Endpoints(t.links);
             bound == Bindings(base, StartedEnds(ends, t.nodes)) + Bindings(base, Where(ends, LeftToBridges(t.nodes)))
    ensures WellBound(t, BasePort(options), bound)
  {
    var ends := Endpoints(t.links);
    BindingsAppend(BasePort(options), StartedEnds(ends, t.nodes), Where(ends, LeftToBridges(t.nodes)));
    ListenersAreWellBound(t, options);
  }

  lemma NothingLeft(held: Holdings, owner: Ledger)
    requires Tidy(held, owner) && held.bridges == [] && held.nodes == map[]
    ensures owner == map[] && held.domains == map[] && held.routers == map[] && held.endpoints == {}
  {
    forall h ensures h !in owner {
      assert Accounted(held, owner, h);
    }
    forall n ensures n !in held.domains && n !in held.routers && n !in held.endpoints {
      assert NodeShaped(held, n);
    }
  }

  lemma SomethingLeft(held: Holdings, owner: Ledger)
    requires Tidy(held, owner) && (held.bridges != [] || held.nodes != map[])
    ensures owner != map[]
  {
    if held.bridges != [] {
      assert Accounted(held, owner, held.bridges[0]);
    } else {
      var n :| n in held.nodes;
      assert NodeShaped(held, n);
      var h := if n in held.domains then held.domains[n].directory.value
               else if n in held.routers then held.routers[n] else held.nodes[n];
      assert h in PartsOf(held, n) && Accounted(held, owner, h);
    }
  }

  lemma NamesBelow(token: string, made: seq<HostInterface>, names: seq<string>, counter: nat,
                   counter': nat, end: nat, end': nat)
    requires NamesMade(token, made, names, counter, end) && counter <= counter' && end <= end'
    ensures NamesMade(token, made, names, counter', end')
  {
    forall i: nat ensures NameMade(token, made, names, counter', end', i) {
      assert NameMade(token, made, names, counter, end, i);
    }
  }

  lemma NextBridgeName(token: string, made: seq<HostInterface>, names: seq<string>, c: nat, after: nat)
    requires NamesMade(token, made, names, c, 0) && c <= 65535 && after == c + 1
    ensures NamesMade(token, made, names, after, 0)
    ensures NamesMade(token, made + [DomainBridge(c)], names + [BridgeName(token, c)], after, 0)
  {
    MakeName(token, made, names, c, 0, DomainBridge(c), after, 0);
    NamesBelow(token, made, names, c, after, 0, 0);
  }

  /** The two ends of a veth pair. */
  lemma MakePair(token: string, made: seq<HostInterface>, names: seq<string>, counter: nat, k: nat)
    requires NamesMade(token, made, names, counter, k) && k <= 65535
    ensures NamesMade(token, made + [HostSide(k), PeerSide(k)],
                      names + [HostName(token, k), PeerName(HostName(token, k))], counter, k + 1)
  {
    var more, longer := made + [HostSide(k), PeerSide(k)], names + [HostName(token, k), PeerName(HostName(token, k))];
    var end := k + 1;
    forall i: nat ensures NameMade(token, more, longer, counter, end, i) {
      assert NameMade(token, made, names, counter, k, i);
      forall j | 0 <= j < i && |made| <= i < |more| ensures more[j] != more[i] {
        assert NameMade(token, made, names, counter, k, j);
      }
    }
  }

  /** The first position found stays first. */
  lemma {:induction false} FirstFound(ends: seq<Endpoint>, p: Endpoint -> bool, k: nat)
    requires k < |ends| && p(ends[k]) && Where(ends[..k], p) == []
    ensures Where(ends, p) != [] && Where(ends, p)[..1] == [k]
    decreases |ends|
  {
    var n := |ends| - 1;
    if k < n {
      assert ends[..n][..k] == ends[..k];
      FirstFound(ends[..n], p, k);
    }
  }

  /** The search of `startEndpoint`. */
  method FirstEndOn(links: seq<Link>, node: string) returns (k: Option<nat>)
    ensures k.None? <==> Where(Endpoints(links), OnNode(node)) == []
    ensures k.Some? ==> Where(Endpoints(links), OnNode(node))[..1] == [k.value]
  {
    ghost var ends, p := Endpoints(links), OnNode(node);
    assert ends[..0] == [];
    for i := 0 to 2 * |links|
      invariant Where(ends[..i], p) == []
    {
      WhereNext(ends, p, i);
      if EndAt(links, i).node == node {
        FirstFound(ends, p, i);
        return Some(i);
      }
    }
    assert ends[..2 * |links|] == ends;
    k := None;
  }

  /** The dictionary of native mappings, refused when an ID is repeated. */
  method NativeMappings(interfaces: seq<NativePort>) returns (ok: bool, mappings: map<string, NativePort>)
    ensures ok <==> MappingsDistinct(interfaces)
    ensures ok ==> forall id :: id in mappings <==> HasMapping(interfaces, id)
    ensures ok ==> forall id :: id in mappings ==> mappings[id] in interfaces && mappings[id].id == id
  {
    mappings := map[];
    for i := 0 to |interfaces|
      invariant forall id :: id in mappings <==> exists j :: 0 <= j < i && interfaces[j].id == id
      invariant forall id :: id in mappings ==> mappings[id] in interfaces && mappings[id].id == id
      invariant forall j, k :: 0 <= j < k < i ==> interfaces[j].id != interfaces[k].id
    {
      if interfaces[i].id in mappings {
        return false, mappings;
      }
      mappings := mappings[interfaces[i].id := interfaces[i]];
    }
    ok := true;
  }

  /** An interface of a router: its UDP port pair and the native port behind it. */
  datatype Interface = Interface(binding: Binding, native: NativePort)

  function BindingsOf(plan: seq<Interface>): seq<Binding> {
    seq(|plan|, i requires 0 <= i < |plan| => plan[i].binding)
  }

  /** Each interface leads to the native port of its link end's port. */
  ghost predicate WiredRight(links: seq<Link>, node: Node, plan: seq<Interface>)
    requires node.spec.Dynamips?
  {
    forall i :: 0 <= i < |plan| ==>
      && plan[i].native in node.spec.interfaces
      && plan[i].binding.end < 2 * |links| && plan[i].native.id == EndAt(links, plan[i].binding.end).port
  }

  lemma OneMoreInterface(links: seq<Link>, node: Node, plan: seq<Interface>, i: Interface)
    requires node.spec.Dynamips? && WiredRight(links, node, plan) && i.native in node.spec.interfaces
    requires i.binding.end < 2 * |links| && i.native.id == EndAt(links, i.binding.end).port
    ensures BindingsOf(plan + [i]) == BindingsOf(plan) + [i.binding] && WiredRight(links, node, plan + [i])
  {
  }

  /** The interfaces of a router, from its native mappings and its links. */
  method PlanRouter(links: seq<Link>, node: Node, base: int) returns (ok: bool, plan: seq<Interface>)
    requires node.spec.Dynamips?
    ensures ok <==> RouterReady(links, node, base)
    ensures ok ==> BindingsOf(plan) == Bindings(base, Where(Endpoints(links), OnNode(node.id)))
    ensures ok ==> WiredRight(links, node, plan)
  {
    var mappings;
    plan := [];
    ok, mappings := NativeMappings(node.spec.interfaces);
    if ok {
      ok, plan := RouterInterfaces(links, node, base, mappings);
    }
  }

  /** The interface list of a router: one for each link end on the node, unless one
      of them cannot be had. */
  method RouterInterfaces(links: seq<Link>, node: Node, base: int, mappings: map<string, NativePort>)
    returns (ok: bool, plan: seq<Interface>)
    requires node.spec.Dynamips?
    requires forall id :: id in mappings ==> mappings[id] in node.spec.interfaces && mappings[id].id == id
    ensures ok <==> forall k :: 0 <= k < 2 * |links| && EndAt(links, k).node == node.id ==>
                      EndAt(links, k).port in mappings && PairFits(base, k)
    ensures ok ==> BindingsOf(plan) == Bindings(base, Where(Endpoints(links), OnNode(node.id)))
    ensures WiredRight(links, node, plan)
  {
    ghost var ends, p := Endpoints(links), OnNode(node.id);
    assert ends[..0] == [] && BoundBelow(base, ends, p, 0) == [];
    plan := [];
    for k := 0 to 2 * |links|
      invariant BindingsOf(plan) == BoundBelow(base, ends, p, k) && WiredRight(links, node, plan)
      invariant forall j :: 0 <= j < k && EndAt(links, j).node == node.id ==>
                  EndAt(links, j).port in mappings && PairFits(base, j)
    {
      BoundBelowNext(base, ends, p, k);
      if EndAt(links, k).node != node.id {
        continue;
      }
      var b := BindingOf(base, k);
      if EndAt(links, k).port !in mappings {
        return false, plan;
      }
      if b.local < 1 || b.local > 65535 || b.remote < 1 || b.remote > 65535 {
        assert !PairFits(base, k);
        return false, plan;
      }
      assert PairFits(base, k);
      OneMoreInterface(links, node, plan, Interface(b, mappings[EndAt(links, k).port]));
      plan := plan + [Interface(b, mappings[EndAt(links, k).port])];
    }
    assert ends[..2 * |links|] == ends;
    ok := true;
  }
}
