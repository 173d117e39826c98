/** Starting and closing a topology on one host (`topology/local/container.go`,
    `domains.go`, `dynamips.go`, `shitnet.go`): who owns what after any pattern
    of failures, which UDP ports are bound, and which interface names are used. */
module Realization {
  import opened Options
  import opened Topologies
  import opened Allocation

  // ------------------------------------------------------------ the host

  /** What a container provider answers to one `CreateContainer`. `strays` says
      that it returned a container together with the error. */
  datatype Reply = Created | ImageNotFound(strays: bool) | CreateFailed(strays: bool)

  predicate Strays(reply: Reply) {
    !reply.Created? && reply.strays
  }

  /** Providers and kernel of one run. Every call may fail; a failing call that
      returns no object creates nothing. `replies` lists the answers to the create
      calls, `calls` counts those made, and `abandoned` holds the containers that
      came with an error. `faults` counts the calls that failed for good and
      `attempts` lists the resources whose deletion was tried. Each call names the
      resources tracked at that moment, which must be exactly the others that
      exist. */
  class Host {
    const replies: nat -> Reply
    var calls: nat
    var next: nat
    ghost var live: set<nat>
    ghost var abandoned: set<nat>
    ghost var bound: seq<Binding>
    ghost var interfaces: seq<string>
    ghost var faults: nat
    ghost var attempts: seq<nat>

    ghost predicate Accounts(tracked: set<nat>)
      reads `next, `live, `abandoned
    {
      && live == tracked + abandoned && tracked !! abandoned
      && (forall h :: h in live ==> 0 < h <= next)
    }

    /** No create call so far returned a container together with an error. */
    ghost predicate NoStray()
      reads `calls
    {
      forall i :: 0 <= i < calls ==> !Strays(replies(i))
    }

    /** No create call so far succeeded. */
    ghost predicate NoneCreated()
      reads `calls
    {
      forall i :: 0 <= i < calls ==> !replies(i).Created?
    }

    /** Nothing was abandoned unless such a call was made. */
    ghost predicate Explained()
      reads `calls, `abandoned
    {
      abandoned == {} <==> NoStray()
    }

    /** Nothing has happened yet. */
    ghost predicate Fresh()
      reads `calls, `live, `abandoned, `bound, `interfaces, `faults
    {
      calls == 0 && live == {} && abandoned == {} && bound == [] && interfaces == [] && faults == 0
    }

    constructor (replies: nat -> Reply)
      ensures Accounts({}) && Fresh() && this.replies == replies
    {
      this.replies, calls, next := replies, 0, 0;
      live, abandoned, bound, interfaces, faults, attempts := {}, {}, [], [], 0, [];
    }

    /** Any call whose only trace is whether it failed: a pull, a start, a check of
        the context. */
    method Try() returns (ok: bool)
      modifies this`faults
      ensures faults == old(faults) + if ok then 0 else 1
    {
      ok := *;
      if !ok {
        faults := faults + 1;
      }
    }

    method Acquire(ghost tracked: set<nat>) returns (h: Option<nat>)
      requires Accounts(tracked)
      modifies this`next, this`live, this`faults
      ensures h.None? ==> Accounts(tracked)
      ensures h.Some? ==> h.value !in tracked && Accounts(tracked + {h.value})
      ensures faults == old(faults) + if h.Some? then 0 else 1
    {
      var ok := Try();
      if !ok {
        return None;
      }
      next := next + 1;
      live := live + {next};
      h := Some(next);
    }

    /** `CreateContainer`, for the first time or `again` after a pull; an object
        returned with an error is not tracked by the caller and stays behind. */
    method CreateContainer(again: bool, ghost tracked: set<nat>) returns (h: nat, reply: Reply)
      requires Accounts(tracked) && Explained()
      modifies this`calls, this`next, this`live, this`abandoned, this`faults
      ensures faults == old(faults) + if reply.Created? || (reply.ImageNotFound? && !again) then 0 else 1
      ensures Explained() && calls == old(calls) + 1 && reply == replies(old(calls))
      ensures reply.Created? ==> abandoned == old(abandoned) && h !in tracked && Accounts(tracked + {h})
      ensures !reply.Created? ==> Accounts(tracked)
      ensures !reply.Created? ==> abandoned == old(abandoned) + if reply.strays then {h} else {}
    {
      reply, calls := replies(calls), calls + 1;
      assert NoStray() <==> old(NoStray()) && !Strays(reply);
      if reply.CreateFailed? || (reply.ImageNotFound? && again) {
        faults := faults + 1;
      }
      h := next + 1;
      if reply.Created? || reply.strays {
        next := h;
        live := live + {h};
      }
      if Strays(reply) {
        abandoned := abandoned + {h};
      }
    }

    /** Any deletion, stop or release of one resource that exists. */
    method Delete(h: nat, ghost tracked: set<nat>) returns (ok: bool)
      requires Accounts(tracked) && h in tracked
      modifies this`live, this`faults, this`attempts
      ensures Accounts(if ok then tracked - {h} else tracked)
      ensures attempts == old(attempts) + [h] && faults == old(faults) + if ok then 0 else 1
    {
      attempts := attempts + [h];
      ok := Try();
      if ok {
        live := live - {h};
      }
    }

    method AddLink(name: string, ghost tracked: set<nat>) returns (h: Option<nat>)
      requires Accounts(tracked)
      modifies this`next, this`live, this`interfaces, this`faults
      ensures faults == old(faults) + if h.Some? then 0 else 1
      ensures h.None? ==> Accounts(tracked) && interfaces == old(interfaces)
      ensures h.Some? ==> h.value !in tracked && Accounts(tracked + {h.value}) && interfaces == old(interfaces) + [name]
    {
      h := Acquire(tracked);
      if h.Some? {
        interfaces := interfaces + [name];
      }
    }

    /** A switch with one UDP port: `connect` of a domain. */
    method Connect(b: Binding, ghost tracked: set<nat>) returns (h: Option<nat>)
      requires Accounts(tracked)
      modifies this`next, this`live, this`bound, this`faults
      ensures faults == old(faults) + if h.Some? then 0 else 1
      ensures h.None? ==> Accounts(tracked) && bound == old(bound)
      ensures h.Some? ==> h.value !in tracked && Accounts(tracked + {h.value}) && bound == old(bound) + [b]
    {
      h := Acquire(tracked);
      if h.Some? {
        bound := bound + [b];
      }
    }

    /** `StartContainerBridge`: a veth pair and a UDP listener, or nothing. */
    method StartBridge(b: Binding, hostName: string, ghost tracked: set<nat>) returns (h: Option<nat>)
      requires Accounts(tracked)
      modifies this`next, this`live, this`bound, this`interfaces, this`faults
      ensures faults == old(faults) + if h.Some? then 0 else 1
      ensures h.None? ==> Accounts(tracked) && bound == old(bound) && interfaces == old(interfaces)
      ensures h.Some? ==> h.value !in tracked && Accounts(tracked + {h.value}) && bound == old(bound) + [b]
                          && interfaces == old(interfaces) + [hostName, PeerName(hostName)]
    {
      h := Acquire(tracked);
      if h.Some? {
        bound, interfaces := bound + [b], interfaces + [hostName, PeerName(hostName)];
      }
    }

    /** The router manager's `Create`: a router with its listeners and lease, a
        remainder that could not be cleaned up, or nothing. */
    method CreateRouter(bs: seq<Binding>, ghost tracked: set<nat>) returns (h: Option<nat>, ok: bool)
      requires Accounts(tracked)
      modifies this`next, this`live, this`bound, this`faults
      ensures faults == old(faults) + if ok then 0 else 1
      ensures h.None? ==> Accounts(tracked) && !ok
      ensures h.Some? ==> h.value !in tracked && Accounts(tracked + {h.value})
      ensures bound == if ok then old(bound) + bs else old(bound)
    {
      h := Acquire(tracked);
      ok := h.Some?;
      if ok {
        ok := Try();
      }
      if ok {
        bound := bound + bs;
      }
    }

    /** Starting an endpoint binds its UDP port. */
    method StartEndpoint(b: Binding) returns (ok: bool)
      modifies this`bound, this`faults
      ensures bound == if ok then old(bound) + [b] else old(bound)
      ensures faults == old(faults) + if ok then 0 else 1
    {
      ok := Try();
      if ok {
        bound := bound + [b];
      }
    }
  }

  // ------------------------------------------------------------ what is tracked

  ghost function Elements(s: seq<nat>): set<nat> {
    set h | h in s
  }

  ghost predicate NoRepeats(s: seq<nat>) {
    forall i, j :: 0 <= i < j < |s| ==> s[i] != s[j]
  }

  /** What a domain node owns. The directory goes last. */
  datatype DomainResources = DomainResources(
    directory: Option<nat>, links: seq<nat>, switches: seq<nat>, id: Option<nat>, prepared: Option<nat>)

  ghost function Opt(h: Option<nat>): set<nat> {
    if h.Some? then {h.value} else {}
  }

  ghost function DomainParts(d: DomainResources): set<nat> {
    Opt(d.directory) + Elements(d.links) + Elements(d.switches) + Opt(d.id) + Opt(d.prepared)
  }

  /** Nothing is listed twice. */
  ghost predicate HeldOnce(d: DomainResources) {
    && NoRepeats(d.links) && NoRepeats(d.switches)
    && Opt(d.directory) !! Elements(d.links) !! Elements(d.switches) !! Opt(d.id) !! Opt(d.prepared)
  }

  /** The maps and slices of `Running` that track resources. A node in `domains`
      holds its domain resources, a node in `routers` a router with its lease, and
      any other node the workload that `nodes` names. */
  datatype Holdings = Holdings(
    nodes: map<string, nat>, order: seq<string>, bridges: seq<nat>, routers: map<string, nat>,
    endpoints: set<string>, domains: map<string, DomainResources>, providers: map<string, string>)

  const NOTHING_HELD := Holdings(map[], [], [], map[], {}, map[], map[])

  /** What is tracked under node `n`. */
  ghost function PartsOf(t: Holdings, n: string): set<nat> {
    if n !in t.nodes then {}
    else if n in t.domains then DomainParts(t.domains[n])
    else if n in t.routers then {t.routers[n]}
    else {t.nodes[n]}
  }

  /** The maps agree on the kind of node `n`. */
  ghost predicate NodeShaped(t: Holdings, n: string) {
    && (n in t.domains || n in t.routers || n in t.endpoints ==> n in t.nodes)
    && (n in t.nodes ==> n in t.order)
    && (n in t.domains ==> n !in t.routers && n !in t.endpoints)
    && (n in t.routers ==> n !in t.endpoints)
    && (n in t.domains ==> HeldOnce(t.domains[n]) && t.domains[n].directory.Some?)
  }

  ghost predicate Shaped(t: Holdings) {
    forall n :: NodeShaped(t, n)
  }

  /** Who owns each tracked resource: a node, or (`None`) the bridge list. */
  type Ledger = map<nat, Option<string>>

  ghost predicate Located(t: Holdings, place: Option<string>, h: nat) {
    if place.None? then h in t.bridges else h in PartsOf(t, place.value)
  }

  /** Resource `h` is held only where the ledger says, and there if it says so. */
  ghost predicate Accounted(t: Holdings, owner: Ledger, h: nat) {
    && (h in t.bridges ==> h in owner && owner[h].None?)
    && (forall n :: h in PartsOf(t, n) ==> h in owner && owner[h] == Some(n))
    && (h in owner ==> Located(t, owner[h], h))
  }

  /** Every resource in the ledger is held at exactly one place, once, and
      nothing else is held. */
  ghost predicate Tidy(t: Holdings, owner: Ledger) {
    Shaped(t) && NoRepeats(t.bridges) && forall h :: Accounted(t, owner, h)
  }

  /** The ledger after node `n`, which held `before`, holds `s`. */
  ghost function Reowned(owner: Ledger, n: string, before: set<nat>, s: set<nat>): (r: Ledger)
    ensures r.Keys == owner.Keys - (before - s) + s
  {
    map h | h in owner.Keys - (before - s) + s :: if h in s then Some(n) else owner[h]
  }

  /** Changing what one node holds keeps the ledger tidy. */
  lemma Retrack(t: Holdings, owner: Ledger, n: string, t': Holdings)
    requires Tidy(t, owner) && Shaped(t') && t'.bridges == t.bridges
    requires forall m :: m != n ==> PartsOf(t', m) == PartsOf(t, m)
    requires (PartsOf(t', n) - PartsOf(t, n)) !! owner.Keys
    ensures Tidy(t', Reowned(owner, n, PartsOf(t, n), PartsOf(t', n)))
  {
    var owner' := Reowned(owner, n, PartsOf(t, n), PartsOf(t', n));
    forall h ensures Accounted(t', owner', h) {
      assert Accounted(t, owner, h);
    }
  }

  lemma PartsAreOwned(t: Holdings, owner: Ledger, n: string)
    requires Tidy(t, owner)
    ensures forall h :: h in PartsOf(t, n) ==> h in owner && owner[h] == Some(n)
  {
    forall h | h in PartsOf(t, n) ensures h in owner && owner[h] == Some(n) {
      assert Accounted(t, owner, h);
    }
  }

  // ------------------------------------------------------------ tracking

  function WithContainer(t: Holdings, n: string, h: nat, provider: string): Holdings {
    t.(nodes := t.nodes[n := h], providers := t.providers[n := provider], order := t.order + [n])
  }

  function WithEndpoint(t: Holdings, n: string, h: nat): Holdings {
    t.(nodes := t.nodes[n := h], endpoints := t.endpoints + {n}, order := t.order + [n])
  }

  function WithRouter(t: Holdings, n: string, h: nat): Holdings {
    t.(nodes := t.nodes[n := h], routers := t.routers[n := h], order := t.order + [n])
  }

  function WithDirectory(t: Holdings, n: string, h: nat): Holdings {
    t.(nodes := t.nodes[n := 0], order := t.order + [n],
       domains := t.domains[n := DomainResources(Some(h), [], [], None, None)])
  }

  /** A new entry of `nodes`, of any kind. */
  ghost predicate Tracks(t: Holdings, n: string, h: nat, t': Holdings) {
    || t' == WithEndpoint(t, n, h) || t' == WithRouter(t, n, h) || t' == WithDirectory(t, n, h)
    || t' == WithContainer(t, n, h, if n in t'.providers then t'.providers[n] else "")
  }

  lemma NewNodeIsShaped(t: Holdings, n: string, h: nat, t': Holdings)
    requires Shaped(t) && n !in t.nodes && Tracks(t, n, h, t')
    ensures Shaped(t')
  {
    forall m ensures NodeShaped(t', m) {
      assert NodeShaped(t, m) && NodeShaped(t, n);
    }
  }

  lemma NewNodeHolds(t: Holdings, n: string, h: nat, t': Holdings)
    requires Shaped(t) && n !in t.nodes && Tracks(t, n, h, t')
    ensures PartsOf(t', n) == {h} && PartsOf(t, n) == {} && t'.bridges == t.bridges
  {
    assert NodeShaped(t, n);
  }

  lemma OthersHoldTheSame(t: Holdings, n: string, h: nat, t': Holdings, m: string)
    requires Tracks(t, n, h, t') && m != n
    ensures PartsOf(t', m) == PartsOf(t, m)
  {
  }

  /** Whichever way a new node is tracked, it owns exactly its new resource. */
  lemma TrackNode(t: Holdings, owner: Ledger, n: string, h: nat, t': Holdings)
    requires Tidy(t, owner) && n !in t.nodes && h !in owner && Tracks(t, n, h, t')
    ensures Tidy(t', owner[h := Some(n)])
  {
    NewNodeIsShaped(t, n, h, t');
    NewNodeHolds(t, n, h, t');
    forall m | m != n ensures PartsOf(t', m) == PartsOf(t, m) {
      OthersHoldTheSame(t, n, h, t', m);
    }
    RetrackNew(t, owner, n, h, t');
  }

  lemma RetrackNew(t: Holdings, owner: Ledger, n: string, h: nat, t': Holdings)
    requires Tidy(t, owner) && Shaped(t') && t'.bridges == t.bridges && h !in owner
    requires PartsOf(t, n) == {} && PartsOf(t', n) == {h}
    requires forall m :: m != n ==> PartsOf(t', m) == PartsOf(t, m)
    ensures Tidy(t', owner[h := Some(n)])
  {
    Retrack(t, owner, n, t');
    assert Reowned(owner, n, {}, {h}) == owner[h := Some(n)];
  }

  function WithDomain(t: Holdings, n: string, d: DomainResources): Holdings {
    t.(domains := t.domains[n := d])
  }

  /** A domain may hold anything that no one else does. */
  lemma DomainIsShaped(t: Holdings, n: string, d: DomainResources)
    requires Shaped(t) && n in t.domains && HeldOnce(d) && d.directory.Some?
    ensures Shaped(WithDomain(t, n, d)) && PartsOf(t, n) == DomainParts(t.domains[n])
    ensures PartsOf(WithDomain(t, n, d), n) == DomainParts(d)
    ensures forall m :: m != n ==> PartsOf(WithDomain(t, n, d), m) == PartsOf(t, m)
  {
    forall m ensures NodeShaped(WithDomain(t, n, d), m) {
      assert NodeShaped(t, m);
    }
    assert NodeShaped(t, n);
  }

  /** A domain that holds one more resource owns exactly that one more. */
  lemma TrackInDomain(t: Holdings, owner: Ledger, n: string, d: DomainResources, h: nat)
    requires Tidy(t, owner) && n in t.domains && h !in owner
    requires HeldOnce(d) && d.directory.Some? && DomainParts(d) == DomainParts(t.domains[n]) + {h}
    ensures Tidy(WithDomain(t, n, d), owner[h := Some(n)])
  {
    DomainIsShaped(t, n, d);
    Retrack(t, owner, n, WithDomain(t, n, d));
    PartsAreOwned(t, owner, n);
    assert Reowned(owner, n, DomainParts(t.domains[n]), DomainParts(d)) == owner[h := Some(n)];
  }

  lemma TrackBridge(t: Holdings, owner: Ledger, h: nat)
    requires Tidy(t, owner) && h !in owner
    ensures Tidy(t.(bridges := t.bridges + [h]), owner[h := None])
  {
    var t', owner' := t.(bridges := t.bridges + [h]), owner[h := None];
    assert forall n :: PartsOf(t', n) == PartsOf(t, n);
    forall x ensures Accounted(t', owner', x) {
      assert Accounted(t, owner, x);
    }
    forall n ensures NodeShaped(t', n) {
      assert NodeShaped(t, n);
    }
    assert h !in t.bridges by {
      assert Accounted(t, owner, h);
    }
  }

  lemma WithoutElement(s: seq<nat>, i: nat)
    requires NoRepeats(s) && i < |s|
    ensures NoRepeats(s[..i] + s[i + 1..])
    ensures forall x :: x in s[..i] + s[i + 1..] <==> x in s && x != s[i]
  {
    var rest := s[..i] + s[i + 1..];
    assert forall j :: 0 <= j < |rest| ==> rest[j] == s[if j < i then j else j + 1];
    forall x | x in s && x != s[i] ensures x in rest {
      var j :| 0 <= j < |s| && s[j] == x;
      assert rest[if j < i then j else j - 1] == x;
    }
  }

  lemma ForgetBridge(t: Holdings, owner: Ledger, i: nat)
    requires Tidy(t, owner) && i < |t.bridges|
    ensures Tidy(t.(bridges := t.bridges[..i] + t.bridges[i + 1..]), owner - {t.bridges[i]})
    ensures t.bridges[i] in owner
  {
    var gone := t.bridges[i];
    var t', owner' := t.(bridges := t.bridges[..i] + t.bridges[i + 1..]), owner - {gone};
    WithoutElement(t.bridges, i);
    assert forall n :: PartsOf(t', n) == PartsOf(t, n);
    assert Accounted(t, owner, gone);
    forall x ensures Accounted(t', owner', x) {
      assert Accounted(t, owner, x);
    }
    forall n ensures NodeShaped(t', n) {
      assert NodeShaped(t, n);
    }
  }

  /** Forgets a node whose resources are gone. */
  function WithoutNode(t: Holdings, n: string): Holdings {
    t.(nodes := t.nodes - {n}, routers := t.routers - {n}, endpoints := t.endpoints - {n}, domains := t.domains - {n})
  }

  lemma ForgetNode(t: Holdings, owner: Ledger, n: string)
    requires Tidy(t, owner)
    ensures Tidy(WithoutNode(t, n), owner - PartsOf(t, n))
    ensures PartsOf(t, n) <= owner.Keys
  {
    forall m ensures NodeShaped(WithoutNode(t, n), m) {
      assert NodeShaped(t, m);
    }
    Retrack(t, owner, n, WithoutNode(t, n));
    PartsAreOwned(t, owner, n);
    assert Reowned(owner, n, PartsOf(t, n), {}) == owner - PartsOf(t, n);
  }

  /** A domain that lost some resources owns exactly the rest. */
  lemma ShrinkDomain(t: Holdings, owner: Ledger, n: string, d: DomainResources)
    requires Tidy(t, owner) && n in t.domains && HeldOnce(d) && d.directory.Some?
    requires DomainParts(d) <= DomainParts(t.domains[n])
    ensures Tidy(WithDomain(t, n, d), owner - (DomainParts(t.domains[n]) - DomainParts(d)))
    ensures DomainParts(t.domains[n]) <= owner.Keys
  {
    DomainIsShaped(t, n, d);
    Retrack(t, owner, n, WithDomain(t, n, d));
    PartsAreOwned(t, owner, n);
    var before, s := DomainParts(t.domains[n]), DomainParts(d);
    assert Reowned(owner, n, before, s) == owner - (before - s);
  }

  // ------------------------------------------------------------ closing a domain

  /** The stop and delete loops: what fails stays, in order. */
  method DeleteEach(host: Host, items: seq<nat>, ghost others: set<nat>) returns (remaining: seq<nat>)
    requires host.Accounts(others + Elements(items)) && NoRepeats(items) && others !! Elements(items)
    modifies host`live, host`faults, host`attempts
    ensures host.Accounts(others + Elements(remaining)) && NoRepeats(remaining)
    ensures Elements(remaining) <= Elements(items)
    ensures host.attempts == old(host.attempts) + items && host.faults == old(host.faults) + |remaining|
  {
    remaining := [];
    assert items[0..] == items;
    for i := 0 to |items|
      invariant NoRepeats(remaining) && Elements(remaining) <= Elements(items[..i])
      invariant host.attempts == old(host.attempts) + items[..i] && host.faults == old(host.faults) + |remaining|
      invariant host.Accounts(others + Elements(remaining) + Elements(items[i..]))
    {
      SplitItems(items, i);
      ghost var tracked := others + Elements(remaining) + Elements(items[i..]);
      var ok := host.Delete(items[i], tracked);
      if ok {
        assert tracked - {items[i]} == others + Elements(remaining) + Elements(items[i + 1..]);
      } else {
        assert Elements(remaining + [items[i]]) == Elements(remaining) + {items[i]};
        assert tracked == others + Elements(remaining + [items[i]]) + Elements(items[i + 1..]);
        remaining := remaining + [items[i]];
      }
    }
    assert items[..|items|] == items && Elements(items[|items|..]) == {};
    assert others + Elements(remaining) + {} == others + Elements(remaining);
  }

  lemma SplitItems(items: seq<nat>, i: nat)
    requires NoRepeats(items) && i < |items|
    ensures Elements(items[i..]) == {items[i]} + Elements(items[i + 1..])
    ensures Elements(items[..i + 1]) == Elements(items[..i]) + {items[i]}
    ensures items[i] !in Elements(items[..i]) && items[i] !in Elements(items[i + 1..])
    ensures items[i] in Elements(items) && Elements(items[..i]) <= Elements(items)
  {
    assert items[i..] == [items[i]] + items[i + 1..];
    assert items[..i + 1] == items[..i] + [items[i]];
  }

  const GONE := DomainResources(None, [], [], None, None)

  ghost function OptSeq(h: Option<nat>): seq<nat> {
    if h.Some? then [h.value] else []
  }

  /** What a close of `d` that leaves `r` has tried to delete, in order: the
      switches, the domain, then the leases unless the domain stayed, then the links
      unless a lease stayed, and the directory when nothing else is left. */
  ghost function DomainTries(d: DomainResources, r: DomainResources): seq<nat> {
    d.switches + OptSeq(d.id)
    + (if r.id.Some? then [] else OptSeq(d.prepared))
    + (if r.id.Some? || r.prepared.Some? then []
       else d.links + if r.switches != [] || r.links != [] then [] else OptSeq(d.directory))
  }

  /** `domainResources.close`: switches, domain, leases, links, directory; an error
      leaves at least the directory. */
  method CloseDomain(host: Host, d: DomainResources, ghost others: set<nat>) returns (r: DomainResources, ok: bool)
    requires HeldOnce(d) && d.directory.Some?
    requires others !! DomainParts(d) && host.Accounts(others + DomainParts(d))
    modifies host`live, host`faults, host`attempts
    ensures HeldOnce(r) && DomainParts(r) <= DomainParts(d) && host.Accounts(others + DomainParts(r))
    ensures ok <==> DomainParts(r) == {}
    ensures if ok then r == GONE else r.directory == d.directory
    ensures host.attempts == old(host.attempts) + DomainTries(d, r)
    ensures host.faults >= old(host.faults) && (ok <==> host.faults == old(host.faults))
  {
    var stopped := StopSwitches(host, d, others);
    var freed := FreeDomain(host, stopped, others);
    if freed.id.Some? || freed.prepared.Some? {
      assert d.directory.value in DomainParts(freed);
      StuckTries(old(host.attempts), d, freed);
      return freed, false;
    }
    r, ok := DropRest(host, freed, others);
    FreedTries(old(host.attempts), d, freed, r);
  }

  lemma StuckTries(before: seq<nat>, d: DomainResources, r: DomainResources)
    requires r.id.Some? || r.prepared.Some?
    ensures before + d.switches + OptSeq(d.id) + (if r.id.Some? then [] else OptSeq(d.prepared)) ==
            before + DomainTries(d, r)
  {
  }

  lemma FreedTries(before: seq<nat>, d: DomainResources, freed: DomainResources, r: DomainResources)
    requires r.id.None? && r.prepared.None? && (r.switches == [] <==> freed.switches == [])
    ensures before + d.switches + OptSeq(d.id) + OptSeq(d.prepared) + d.links
            + (if freed.switches != [] || r.links != [] then [] else OptSeq(d.directory)) ==
            before + DomainTries(d, r)
  {
  }

  /** The start of `close`: every switch is stopped. */
  method StopSwitches(host: Host, d: DomainResources, ghost others: set<nat>) returns (r: DomainResources)
    requires HeldOnce(d) && others !! DomainParts(d) && host.Accounts(others + DomainParts(d))
    modifies host`live, host`faults, host`attempts
    ensures HeldOnce(r) && DomainParts(r) <= DomainParts(d) && host.Accounts(others + DomainParts(r))
    ensures r == d.(switches := r.switches)
    ensures host.attempts == old(host.attempts) + d.switches && host.faults == old(host.faults) + |r.switches|
  {
    ghost var rest := others + Opt(d.directory) + Elements(d.links) + Opt(d.id) + Opt(d.prepared);
    assert others + DomainParts(d) == rest + Elements(d.switches);
    var switches := DeleteEach(host, d.switches, rest);
    r := d.(switches := switches);
    assert others + DomainParts(r) == rest + Elements(r.switches);
  }

  /** The end of `close`: the links, and the directory when nothing else is left. */
  method DropRest(host: Host, d: DomainResources, ghost others: set<nat>) returns (r: DomainResources, ok: bool)
    requires HeldOnce(d) && d.directory.Some? && d.id.None? && d.prepared.None?
    requires others !! DomainParts(d) && host.Accounts(others + DomainParts(d))
    modifies host`live, host`faults, host`attempts
    ensures HeldOnce(r) && DomainParts(r) <= DomainParts(d) && host.Accounts(others + DomainParts(r))
    ensures ok <==> DomainParts(r) == {}
    ensures if ok then r == GONE else r == d.(links := r.links)
    ensures host.attempts == old(host.attempts) + d.links
                             + if d.switches != [] || r.links != [] then [] else OptSeq(d.directory)
    ensures host.faults >= old(host.faults) && (ok <==> d.switches == [] && host.faults == old(host.faults))
  {
    ghost var rest := others + Opt(d.directory) + Elements(d.switches);
    assert others + DomainParts(d) == rest + Elements(d.links);
    var links := DeleteEach(host, d.links, rest);
    r := d.(links := links);
    assert others + DomainParts(r) == rest + Elements(r.links);
    assert d.directory.value in DomainParts(r);
    if r.switches != [] || r.links != [] {
      return r, false;
    }
    assert DomainParts(r) == {r.directory.value};
    ok := host.Delete(r.directory.value, others + DomainParts(r));
    if ok {
      assert others + {d.directory.value} - {d.directory.value} == others + DomainParts(GONE);
      r := GONE;
    }
  }

  /** The middle of `close`: the domain, and only after it the disk leases. */
  method FreeDomain(host: Host, d: DomainResources, ghost others: set<nat>) returns (r: DomainResources)
    requires HeldOnce(d) && others !! DomainParts(d) && host.Accounts(others + DomainParts(d))
    modifies host`live, host`faults, host`attempts
    ensures host.attempts == old(host.attempts) + OptSeq(d.id) + if r.id.Some? then [] else OptSeq(d.prepared)
    ensures host.faults == old(host.faults) + if r.id.Some? || r.prepared.Some? then 1 else 0
    ensures HeldOnce(r) && DomainParts(r) <= DomainParts(d) && host.Accounts(others + DomainParts(r))
    ensures r == d.(id := r.id, prepared := r.prepared)
    ensures r.id.Some? ==> r == d
  {
    r := d;
    if r.id.Some? {
      var ok := host.Delete(r.id.value, others + DomainParts(r));
      if !ok {
        return;
      }
      assert others + DomainParts(r) - {r.id.value} == others + DomainParts(r.(id := None));
      r := r.(id := None);
    }
    if r.prepared.Some? {
      var ok := host.Delete(r.prepared.value, others + DomainParts(r));
      if !ok {
        return;
      }
      assert others + DomainParts(r) - {r.prepared.value} == others + DomainParts(r.(prepared := None));
      r := r.(prepared := None);
    }
  }
}
