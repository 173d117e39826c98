/** Router creation and cleanup on a native runtime that may fail at any call,
    and the state lease held for a router
    (`virt/emulator/dynamips/{create,lifecycle,manager}.go`). */
module Dynamips {
  import opened Options
  import opened Leases
  import opened RouterConfigs

  // ------------------------------------------------------------ native handles

  /** A native call that took effect, with the handles it concerns. */
  datatype NativeCall =
    | CreateVm(vm: nat, name: string, instanceId: int, platform: string, directory: string)
    | Configure(vm: nat, setting: Setting)
    | AddCard(vm: nat, slot: nat, name: string)
    | CreateUdp(nio: nat, localPort: nat, remote: Remote)
    | AttachNio(vm: nat, slot: nat, port: nat, nio: nat)

  /** The native runtime: VM and NIO handles that exist now, or were deleted. `log`
      lists the calls that took effect, `faults` counts those that failed, and
      `tries` holds the handles whose deletion was tried. */
  class Runtime {
    var next: nat
    ghost var live: set<nat>
    ghost var deleted: set<nat>
    ghost var log: seq<NativeCall>
    ghost var faults: nat
    ghost var tries: multiset<nat>

    ghost predicate Accounted()
      reads `next, `live, `deleted
    {
      live !! deleted && forall h :: h in live || h in deleted <==> 0 <= h < next
    }

    constructor ()
      ensures Accounted() && live == {} && deleted == {}
    {
      next, live, deleted, log, faults, tries := 0, {}, {}, [], 0, multiset{};
    }

    /** A look at the context, or any call whose effect is in `log`. */
    method Try() returns (ok: bool)
      modifies this`faults
      ensures faults == old(faults) + if ok then 0 else 1
    {
      ok := *;
      if !ok {
        faults := faults + 1;
      }
    }

    method Call(call: NativeCall) returns (ok: bool)
      modifies this`faults, this`log
      ensures faults == old(faults) + (if ok then 0 else 1) && log == old(log) + if ok then [call] else []
    {
      ok := Try();
      if ok {
        log := log + [call];
      }
    }

    /** A new handle, or nothing at all. */
    method Allocate() returns (h: Option<nat>)
      requires Accounted()
      modifies this`next, this`live, this`faults
      ensures Accounted() && faults == old(faults) + if h.Some? then 0 else 1
      ensures h.None? ==> live == old(live)
      ensures h.Some? ==> live == old(live) + {h.value} && h.value !in old(live)
    {
      var ok := Try();
      if !ok {
        return None;
      }
      h := Some(next);
      live := live + {next};
      next := next + 1;
    }

    /** `CreateVM`. */
    method NewVm(cfg: Config, directory: string) returns (h: Option<nat>)
      requires Accounted()
      modifies this`next, this`live, this`faults, this`log
      ensures Accounted() && faults == old(faults) + if h.Some? then 0 else 1
      ensures h.None? ==> live == old(live) && log == old(log)
      ensures h.Some? ==> live == old(live) + {h.value} && h.value !in old(live)
      ensures h.Some? ==> log == old(log) + [CreateVm(h.value, cfg.name, cfg.instanceId, cfg.platform.name, directory)]
    {
      h := Allocate();
      if h.Some? {
        log := log + [CreateVm(h.value, cfg.name, cfg.instanceId, cfg.platform.name, directory)];
      }
    }

    /** `CreateUDP`. */
    method NewUdp(localPort: nat, remote: Remote) returns (h: Option<nat>)
      requires Accounted()
      modifies this`next, this`live, this`faults, this`log
      ensures Accounted() && faults == old(faults) + if h.Some? then 0 else 1
      ensures h.None? ==> live == old(live) && log == old(log)
      ensures h.Some? ==> live == old(live) + {h.value} && h.value !in old(live)
      ensures h.Some? ==> log == old(log) + [CreateUdp(h.value, localPort, remote)]
    {
      h := Allocate();
      if h.Some? {
        log := log + [CreateUdp(h.value, localPort, remote)];
      }
    }

    /** `Delete` of a VM or NIO that exists: it is gone, or still there. */
    method Delete(h: nat) returns (ok: bool)
      requires Accounted() && h in live
      modifies this`live, this`deleted, this`faults, this`tries
      ensures Accounted() && tries == old(tries) + multiset{h}
      ensures live == if ok then old(live) - {h} else old(live)
      ensures faults == old(faults) + if ok then 0 else 1
    {
      tries := tries + multiset{h};
      ok := Try();
      if ok {
        live, deleted := live - {h}, deleted + {h};
      }
    }
  }

  // ------------------------------------------------------------ routers

  datatype Router = Router(
    name: string, instanceId: int, stateDirectory: string, lease: Option<Lease>,
    vm: Option<nat>, nios: map<string, nat>)

  ghost function NioHandles(nios: map<string, nat>): set<nat> {
    set id | id in nios :: nios[id]
  }

  /** Every native handle a router holds. */
  ghost function Handles(r: Router): set<nat> {
    NioHandles(r.nios) + if r.vm.Some? then {r.vm.value} else {}
  }

  /** No handle is held twice by the same router. */
  ghost predicate HeldOnce(r: Router) {
    && (r.vm.Some? ==> r.vm.value !in NioHandles(r.nios))
    && Injective(r.nios)
  }

  lemma AddNio(nios: map<string, nat>, id: string, h: nat)
    requires id !in nios
    ensures NioHandles(nios[id := h]) == NioHandles(nios) + {h}
  {
    var more := nios[id := h];
    forall x | x in NioHandles(nios) ensures x in NioHandles(more) {
      var k :| k in nios && nios[k] == x;
      assert more[k] == x;
    }
    assert more[id] == h;
  }

  ghost predicate Injective(nios: map<string, nat>) {
    forall a, b :: a in nios && b in nios && nios[a] == nios[b] ==> a == b
  }

  lemma NoHandles(nios: map<string, nat>)
    ensures NioHandles(nios) == {} <==> nios.Keys == {}
  {
    if nios.Keys != {} {
      var id :| id in nios.Keys;
      assert nios[id] in NioHandles(nios);
    }
  }

  lemma RemoveNio(nios: map<string, nat>, id: string)
    requires id in nios && Injective(nios)
    ensures NioHandles(nios - {id}) == NioHandles(nios) - {nios[id]}
  {
    var less := nios - {id};
    forall x | x in NioHandles(nios) - {nios[id]} ensures x in NioHandles(less) {
      var k :| k in nios && nios[k] == x;
      assert less[k] == x;
    }
  }

  /** The directory a router works in, given what its path resolves to. */
  function Directory(cfg: Config, resolved: Option<string>): Option<string> {
    if cfg.stateDirectory == "" then Some("") else resolved
  }

  /** Two routers that share what must be their own. */
  ghost predicate Share(a: Router, b: Router) {
    a.name == b.name || a.instanceId == b.instanceId || (a.stateDirectory != "" && a.stateDirectory == b.stateDirectory)
  }

  ghost predicate NothingShared(routers: map<string, Router>) {
    forall a, b :: a in routers && b in routers && a != b ==> !Share(routers[a], routers[b])
  }

  /** The ID is taken, or another router has what the new one must have alone. */
  ghost predicate Occupied(routers: map<string, Router>, cfg: Config, directory: string) {
    || cfg.id in routers
    || exists id :: id in routers && Share(routers[id], Router(cfg.name, cfg.instanceId, directory, cfg.lease, None, map[]))
  }

  // ------------------------------------------------------------ native scripts

  ghost function InterfaceIds(interfaces: seq<Interface>): set<string> {
    set i | 0 <= i < |interfaces| :: interfaces[i].id
  }

  ghost function Configured(vm: nat, settings: seq<Setting>): seq<NativeCall> {
    seq(|settings|, i requires 0 <= i < |settings| => Configure(vm, settings[i]))
  }

  ghost function Carded(vm: nat, cards: seq<Card>): seq<NativeCall> {
    seq(|cards|, i requires 0 <= i < |cards| => AddCard(vm, cards[i].slot, cards[i].name))
  }

  /** An NIO with the interface's UDP ports, attached at its slot and port. */
  ghost function WiredOne(vm: nat, iface: Interface, nio: nat): seq<NativeCall> {
    [CreateUdp(nio, iface.localPort, iface.remote), AttachNio(vm, iface.slot, iface.port, nio)]
  }

  ghost function Wired(vm: nat, interfaces: seq<Interface>, nios: map<string, nat>): seq<NativeCall> {
    if interfaces == [] then []
    else
      var n := |interfaces| - 1;
      Wired(vm, interfaces[..n], nios)
      + if interfaces[n].id in nios then WiredOne(vm, interfaces[n], nios[interfaces[n].id]) else []
  }

  /** The native calls that make a whole router. */
  ghost predicate Built(before: seq<NativeCall>, after: seq<NativeCall>, cfg: Config, r: Router, steps: seq<Setting>) {
    && r.vm.Some? && r.nios.Keys == InterfaceIds(cfg.interfaces)
    && after == before + [CreateVm(r.vm.value, cfg.name, cfg.instanceId, cfg.platform.name, r.stateDirectory)]
                + Configured(r.vm.value, steps) + Carded(r.vm.value, cfg.cards)
                + Wired(r.vm.value, cfg.interfaces, r.nios)
  }

  lemma NewInterface(interfaces: seq<Interface>, i: nat)
    requires DistinctInterfaces(interfaces) && i < |interfaces|
    ensures interfaces[i].id !in InterfaceIds(interfaces[..i])
    ensures InterfaceIds(interfaces[..i + 1]) == InterfaceIds(interfaces[..i]) + {interfaces[i].id}
  {
    var front, longer := interfaces[..i], interfaces[..i + 1];
    assert longer == front + [interfaces[i]] && longer[i] == interfaces[i];
    forall j | 0 <= j < i ensures front[j].id in InterfaceIds(longer) {
      assert longer[j] == front[j];
    }
  }

  lemma {:induction false} WiredIgnores(vm: nat, interfaces: seq<Interface>, before: map<string, nat>, id: string, nio: nat)
    requires id !in InterfaceIds(interfaces)
    ensures Wired(vm, interfaces, before[id := nio]) == Wired(vm, interfaces, before)
    decreases |interfaces|
  {
    if interfaces != [] {
      var n := |interfaces| - 1;
      assert interfaces[n].id in InterfaceIds(interfaces);
      forall j | 0 <= j < n ensures interfaces[..n][j].id in InterfaceIds(interfaces) {
        assert interfaces[..n][j] == interfaces[j];
      }
      WiredIgnores(vm, interfaces[..n], before, id, nio);
    }
  }

  lemma WiredNext(log: seq<NativeCall>, vm: nat, interfaces: seq<Interface>, i: nat,
                  before: map<string, nat>, after: map<string, nat>)
    requires i < |interfaces| && interfaces[i].id !in InterfaceIds(interfaces[..i]) && interfaces[i].id in after
    requires after == before[interfaces[i].id := after[interfaces[i].id]]
    ensures log + Wired(vm, interfaces[..i], before) + WiredOne(vm, interfaces[i], after[interfaces[i].id]) ==
            log + Wired(vm, interfaces[..i + 1], after)
  {
    assert interfaces[..i + 1][..i] == interfaces[..i];
    WiredIgnores(vm, interfaces[..i], before, interfaces[i].id, after[interfaces[i].id]);
  }

  /** What cleaning up `router` has tried when `r` is left: the VM, and all NIOs
      unless the VM stayed. */
  ghost function Tried(router: Router, r: Router): multiset<nat> {
    (if router.vm.Some? then multiset{router.vm.value} else multiset{})
    + if r.vm.Some? then multiset{} else multiset(NioHandles(router.nios))
  }

  lemma CleanupSets(first: set<nat>, live: set<nat>, last: set<nat>, router: Router, r: Router)
    requires HeldOnce(router) && Handles(router) <= first && r.vm.None?
    requires live == if router.vm.Some? then first - {router.vm.value} else first
    requires NioHandles(r.nios) <= NioHandles(router.nios)
    requires last == live - (NioHandles(router.nios) - NioHandles(r.nios))
    ensures last == first - (Handles(router) - Handles(r)) && Handles(r) == NioHandles(r.nios) <= Handles(router)
  {
  }

  /** A router with all its handles gone. */
  ghost function Emptied(router: Router): Router {
    router.(vm := None, nios := map[])
  }

  lemma EmptyHoldsNothing(r: Router)
    requires Handles(r) == {}
    ensures r.vm.None? && r.nios == map[]
  {
    NoHandles(r.nios);
  }

  /** Exactly the router described by `cfg` is new. */
  ghost predicate Adds(was: map<string, Router>, now: map<string, Router>, cfg: Config, directory: string) {
    && cfg.id !in was && cfg.id in now && now == was[cfg.id := now[cfg.id]]
    && now[cfg.id] == Router(cfg.name, cfg.instanceId, directory, cfg.lease, now[cfg.id].vm, now[cfg.id].nios)
  }

  /** A router that clashes with none of the others shares nothing. */
  lemma NewIsUnshared(was: map<string, Router>, now: map<string, Router>, cfg: Config, directory: string)
    requires Adds(was, now, cfg, directory)
    requires forall id :: id in was ==>
               was[id].name != cfg.name && was[id].instanceId != cfg.instanceId
               && (directory == "" || was[id].stateDirectory != directory)
    ensures NothingShared(was) ==> NothingShared(now)
  {
  }

  // ------------------------------------------------------------ who holds what

  ghost predicate RouterOk(routers: map<string, Router>, id: string) {
    id in routers ==>
      HeldOnce(routers[id]) && (routers[id].lease.Some? ==> routers[id].lease.value.request.nodeId == id)
  }

  ghost predicate PairOk(routers: map<string, Router>, a: string, b: string) {
    a in routers && b in routers && a != b ==> Handles(routers[a]) !! Handles(routers[b])
  }

  ghost predicate Separate(routers: map<string, Router>) {
    (forall id :: RouterOk(routers, id)) && (forall a, b :: PairOk(routers, a, b))
  }

  /** Reachable from the `Routers` map. */
  ghost predicate Reachable(routers: map<string, Router>, h: nat) {
    exists id :: id in routers && h in Handles(routers[id])
  }

  ghost predicate HandleOk(routers: map<string, Router>, live: set<nat>, extra: set<nat>, h: nat) {
    && (h in live <==> Reachable(routers, h) || h in extra)
    && (h in extra ==> !Reachable(routers, h))
  }

  /** Every native handle that exists is reachable, at exactly one place, except
      those of a router still under construction. */
  ghost predicate HeldAll(routers: map<string, Router>, live: set<nat>, extra: set<nat>) {
    Separate(routers) && forall h :: HandleOk(routers, live, extra, h)
  }

  lemma NothingHeld()
    ensures HeldAll(map[], {}, {})
  {
    var none: map<string, Router> := map[];
    forall h ensures HandleOk(none, {}, {}, h) {
    }
    forall id ensures RouterOk(none, id) {
    }
    forall a, b ensures PairOk(none, a, b) {
    }
  }

  lemma NewExtra(routers: map<string, Router>, live: set<nat>, extra: set<nat>, h: nat)
    requires HeldAll(routers, live, extra) && h !in live
    ensures HeldAll(routers, live + {h}, extra + {h})
  {
    var live', extra' := live + {h}, extra + {h};
    forall x ensures HandleOk(routers, live', extra', x) {
      assert HandleOk(routers, live, extra, x);
    }
  }

  /** What is live depends on the routers only. */
  lemma LiveAgain(routers: map<string, Router>, a: set<nat>, b: set<nat>)
    requires HeldAll(routers, a, {})
    ensures HeldAll(routers, b, {}) ==> a == b
  {
    if HeldAll(routers, b, {}) {
      forall h ensures h in a <==> h in b {
        assert HandleOk(routers, a, {}, h) && HandleOk(routers, b, {}, h);
      }
    }
  }

  lemma FewerExtra(routers: map<string, Router>, live: set<nat>, extra: set<nat>, rest: set<nat>)
    requires HeldAll(routers, live, extra) && rest <= extra
    ensures HeldAll(routers, live - (extra - rest), rest) && extra <= live
  {
    var live' := live - (extra - rest);
    forall x ensures HandleOk(routers, live', rest, x) && (x in extra ==> x in live) {
      assert HandleOk(routers, live, extra, x);
    }
  }

  lemma ExtraBecomesRouter(routers: map<string, Router>, live: set<nat>, id: string, router: Router)
    requires HeldAll(routers, live, Handles(router)) && id !in routers && HeldOnce(router)
    requires router.lease.Some? ==> router.lease.value.request.nodeId == id
    ensures HeldAll(routers[id := router], live, {})
  {
    var more := routers[id := router];
    forall h ensures HandleOk(more, live, {}, h) && (h in Handles(router) ==> !Reachable(routers, h)) {
      assert HandleOk(routers, live, Handles(router), h);
      ReachableNext(routers, id, router, h);
    }
    forall k ensures RouterOk(more, k) {
      assert RouterOk(routers, k);
    }
    forall a, b ensures PairOk(more, a, b) {
      assert PairOk(routers, a, b);
      forall h | h in Handles(router) ensures !Reachable(routers, h) {
        assert HandleOk(routers, live, Handles(router), h);
      }
    }
  }

  lemma ReachableNext(routers: map<string, Router>, id: string, router: Router, h: nat)
    requires id !in routers
    ensures Reachable(routers[id := router], h) <==> Reachable(routers, h) || h in Handles(router)
  {
    var more := routers[id := router];
    if Reachable(routers, h) {
      var k :| k in routers && h in Handles(routers[k]);
      assert more[k] == routers[k];
    }
    if h in Handles(router) {
      assert more[id] == router;
    }
  }

  lemma HandlesAreLive(routers: map<string, Router>, live: set<nat>, id: string)
    requires HeldAll(routers, live, {}) && id in routers
    ensures Handles(routers[id]) <= live && HeldOnce(routers[id])
  {
    assert RouterOk(routers, id);
    forall h | h in Handles(routers[id]) ensures h in live {
      assert HandleOk(routers, live, {}, h);
    }
  }

  /** Shrinking one router and the live set by the same handles keeps both in step. */
  lemma ShrinkKeepsAll(routers: map<string, Router>, live: set<nat>, id: string, less: Router)
    requires HeldAll(routers, live, {}) && id in routers && HeldOnce(less) && less.lease == routers[id].lease
    requires Handles(less) <= Handles(routers[id])
    ensures HeldAll(routers[id := less], live - (Handles(routers[id]) - Handles(less)), {})
  {
    var now, live' := routers[id := less], live - (Handles(routers[id]) - Handles(less));
    forall h ensures HandleOk(now, live', {}, h) {
      assert HandleOk(routers, live, {}, h);
      StillReachable(routers, id, less, h);
    }
    forall k ensures RouterOk(now, k) {
      assert RouterOk(routers, k);
    }
    forall a, b ensures PairOk(now, a, b) {
      assert PairOk(routers, a, b);
    }
  }

  lemma StillReachable(routers: map<string, Router>, id: string, less: Router, h: nat)
    requires Separate(routers) && id in routers && Handles(less) <= Handles(routers[id])
    ensures Reachable(routers[id := less], h) <==>
            Reachable(routers, h) && h !in Handles(routers[id]) - Handles(less)
  {
    var now := routers[id := less];
    if Reachable(now, h) {
      var k :| k in now && h in Handles(now[k]);
      assert h in Handles(routers[k]) && PairOk(routers, k, id);
    }
    if Reachable(routers, h) && h !in Handles(routers[id]) - Handles(less) {
      var k :| k in routers && h in Handles(routers[k]);
      assert h in Handles(now[k]);
    }
  }

  /** Dropping a router that holds nothing loses nothing. */
  lemma DropKeepsAll(routers: map<string, Router>, live: set<nat>, id: string)
    requires HeldAll(routers, live, {}) && id in routers && Handles(routers[id]) == {}
    ensures HeldAll(routers - {id}, live, {})
  {
    var now := routers - {id};
    forall h ensures HandleOk(now, live, {}, h) {
      assert HandleOk(routers, live, {}, h);
      if Reachable(routers, h) {
        var k :| k in routers && h in Handles(routers[k]);
        assert k in now && h in Handles(now[k]);
      }
    }
    forall k ensures RouterOk(now, k) {
      assert RouterOk(routers, k);
    }
    forall a, b ensures PairOk(now, a, b) {
      assert PairOk(routers, a, b);
    }
  }

  datatype Error = Context | InvalidConfig | Duplicate | CreateFailed | Cleanup

  /** An adapter call's error: the set of categories it wraps; none on success. */
  type Errors = set<Error>

  class Adapter {
    const runtime: Runtime
    var routers: map<string, Router>

    /** Every native handle that exists is reachable, at exactly one place, except
        those of a router still under construction. */
    ghost predicate OwnsAllBut(extra: set<nat>)
      reads `routers, runtime`next, runtime`live, runtime`deleted
    {
      runtime.Accounted() && HeldAll(routers, runtime.live, extra)
    }

    ghost predicate Valid()
      reads `routers, runtime`next, runtime`live, runtime`deleted
    {
      OwnsAllBut({})
    }

    constructor (runtime: Runtime)
      requires runtime.Accounted() && runtime.live == {}
      ensures Valid() && this.runtime == runtime && routers == map[]
    {
      this.runtime := runtime;
      routers := map[];
      new;
      NothingHeld();
    }

    /** `configureRouter`: settings, cards, then an NIO per interface, each stored
        before it is attached; native calls and the context may fail at any point.
        Unique interface IDs keep every NIO in the router's map. */
    method ConfigureRouter(cfg: Config, router: Router) returns (r: Router, ok: bool, ghost steps: seq<Setting>)
      requires OwnsAllBut(Handles(router)) && router.nios == map[] && HeldOnce(router) && router.vm.Some?
      requires DistinctInterfaces(cfg.interfaces)
      modifies runtime`next, runtime`live, runtime`faults, runtime`log
      ensures OwnsAllBut(Handles(r)) && HeldOnce(r) && r == router.(nios := r.nios)
      ensures runtime.faults >= old(runtime.faults)
      ensures ok <==> 0 <= cfg.memory <= MAX_MEMORY && runtime.faults == old(runtime.faults)
      ensures ok ==> r.nios.Keys == InterfaceIds(cfg.interfaces) && SettingsFor(cfg, steps)
      ensures ok ==> runtime.log == old(runtime.log) + Configured(r.vm.value, steps)
                                    + Carded(r.vm.value, cfg.cards) + Wired(r.vm.value, cfg.interfaces, r.nios)
    {
      r, steps := router, [];
      if cfg.memory < 0 || cfg.memory > MAX_MEMORY {
        return r, false, steps;
      }
      var settings := CollectSettings(cfg);
      steps := settings;
      ok := ApplySettings(r.vm.value, settings);
      if !ok {
        return;
      }
      ok := InsertCards(r.vm.value, cfg.cards);
      if !ok {
        return;
      }
      r, ok := AttachInterfaces(cfg, router);
      if ok {
        ok := runtime.Try();
      }
    }

    method ApplySettings(vm: nat, settings: seq<Setting>) returns (ok: bool)
      modifies runtime`faults, runtime`log
      ensures runtime.faults >= old(runtime.faults) && (ok <==> runtime.faults == old(runtime.faults))
      ensures ok ==> runtime.log == old(runtime.log) + Configured(vm, settings)
    {
      for i := 0 to |settings|
        invariant runtime.faults == old(runtime.faults)
        invariant runtime.log == old(runtime.log) + Configured(vm, settings[..i])
      {
        assert settings[..i + 1] == settings[..i] + [settings[i]];
        ok := runtime.Try();
        if ok {
          ok := runtime.Call(Configure(vm, settings[i]));
        }
        if !ok {
          return;
        }
      }
      assert settings[..|settings|] == settings;
      ok := true;
    }

    method InsertCards(vm: nat, cards: seq<Card>) returns (ok: bool)
      modifies runtime`faults, runtime`log
      ensures runtime.faults >= old(runtime.faults) && (ok <==> runtime.faults == old(runtime.faults))
      ensures ok ==> runtime.log == old(runtime.log) + Carded(vm, cards)
    {
      for i := 0 to |cards|
        invariant runtime.faults == old(runtime.faults)
        invariant runtime.log == old(runtime.log) + Carded(vm, cards[..i])
      {
        assert cards[..i + 1] == cards[..i] + [cards[i]];
        ok := runtime.Try();
        if ok {
          ok := runtime.Call(AddCard(vm, cards[i].slot, cards[i].name));
        }
        if !ok {
          return;
        }
      }
      assert cards[..|cards|] == cards;
      ok := true;
    }

    method AttachInterfaces(cfg: Config, router: Router) returns (r: Router, ok: bool)
      requires OwnsAllBut(Handles(router)) && router.nios == map[] && HeldOnce(router) && router.vm.Some?
      requires DistinctInterfaces(cfg.interfaces)
      modifies runtime`next, runtime`live, runtime`faults, runtime`log
      ensures OwnsAllBut(Handles(r)) && HeldOnce(r) && r == router.(nios := r.nios)
      ensures runtime.faults >= old(runtime.faults) && (ok <==> runtime.faults == old(runtime.faults))
      ensures ok ==> r.nios.Keys == InterfaceIds(cfg.interfaces)
      ensures ok ==> runtime.log == old(runtime.log) + Wired(r.vm.value, cfg.interfaces, r.nios)
    {
      r := router;
      for i := 0 to |cfg.interfaces|
        invariant OwnsAllBut(Handles(r)) && HeldOnce(r) && r == router.(nios := r.nios)
        invariant r.nios.Keys == InterfaceIds(cfg.interfaces[..i])
        invariant runtime.faults == old(runtime.faults)
        invariant runtime.log == old(runtime.log) + Wired(r.vm.value, cfg.interfaces[..i], r.nios)
      {
        NewInterface(cfg.interfaces, i);
        ghost var before := r.nios;
        r, ok := AttachInterface(cfg.interfaces[i], r);
        if !ok {
          return;
        }
        WiredNext(old(runtime.log), r.vm.value, cfg.interfaces, i, before, r.nios);
      }
      assert cfg.interfaces[..|cfg.interfaces|] == cfg.interfaces;
      ok := true;
    }

    /** One interface: its NIO is stored before it is attached. */
    method AttachInterface(iface: Interface, router: Router) returns (r: Router, ok: bool)
      requires OwnsAllBut(Handles(router)) && HeldOnce(router) && router.vm.Some? && iface.id !in router.nios
      modifies runtime`next, runtime`live, runtime`faults, runtime`log
      ensures OwnsAllBut(Handles(r)) && HeldOnce(r)
      ensures runtime.faults >= old(runtime.faults) && (ok <==> runtime.faults == old(runtime.faults))
      ensures r == router || (iface.id in r.nios && r == router.(nios := router.nios[iface.id := r.nios[iface.id]]))
      ensures ok ==> iface.id in r.nios
                     && runtime.log == old(runtime.log) + WiredOne(r.vm.value, iface, r.nios[iface.id])
    {
      r := router;
      ok := runtime.Try();
      if !ok {
        return;
      }
      var nio := runtime.NewUdp(iface.localPort, iface.remote);
      if nio.None? {
        return r, false;
      }
      NewExtra(routers, old(runtime.live), Handles(r), nio.value);
      FewerExtra(routers, old(runtime.live), Handles(r), Handles(r));
      AddNio(r.nios, iface.id, nio.value);
      assert Handles(r.(nios := r.nios[iface.id := nio.value])) == Handles(r) + {nio.value};
      r := r.(nios := r.nios[iface.id := nio.value]);
      ok := runtime.Call(AttachNio(r.vm.value, iface.slot, iface.port, nio.value));
    }

    /** `cleanupRouter`: the VM first, and then every NIO, each tried once; what
        fails stays. */
    method CleanupRouter(router: Router) returns (r: Router, ok: bool)
      requires runtime.Accounted() && HeldOnce(router) && Handles(router) <= runtime.live
      modifies runtime`live, runtime`deleted, runtime`faults, runtime`tries
      ensures runtime.Accounted() && HeldOnce(r) && Handles(r) <= Handles(router)
      ensures r == router.(vm := r.vm, nios := r.nios)
      ensures runtime.live == old(runtime.live) - (Handles(router) - Handles(r))
      ensures ok <==> Handles(r) == {}
      ensures r.vm.Some? ==> r == router
      ensures runtime.faults >= old(runtime.faults) && (ok <==> runtime.faults == old(runtime.faults))
      ensures runtime.tries == old(runtime.tries) + Tried(router, r)
    {
      r, ok := DeleteVm(router);
      if !ok {
        assert r.vm.value in Handles(r);
        return;
      }
      ghost var live := runtime.live;
      r, ok := DeleteNios(r);
      CleanupSets(old(runtime.live), live, runtime.live, router, r);
    }

    method DeleteVm(router: Router) returns (r: Router, ok: bool)
      requires runtime.Accounted() && HeldOnce(router) && Handles(router) <= runtime.live
      modifies runtime`live, runtime`deleted, runtime`faults, runtime`tries
      ensures runtime.Accounted() && HeldOnce(r)
      ensures if ok then r == router.(vm := None) && NioHandles(r.nios) <= runtime.live else r == router && r.vm.Some?
      ensures runtime.live == old(runtime.live) - if ok && router.vm.Some? then {router.vm.value} else {}
      ensures runtime.faults == old(runtime.faults) + if ok then 0 else 1
      ensures runtime.tries == old(runtime.tries) + if router.vm.Some? then multiset{router.vm.value} else multiset{}
    {
      r, ok := router, true;
      if r.vm.Some? {
        ok := runtime.Delete(r.vm.value);
      }
      if ok {
        r := r.(vm := None);
      }
    }

    method DeleteNios(router: Router) returns (r: Router, ok: bool)
      requires runtime.Accounted() && HeldOnce(router) && router.vm.None? && NioHandles(router.nios) <= runtime.live
      modifies runtime`live, runtime`deleted, runtime`faults, runtime`tries
      ensures runtime.Accounted() && HeldOnce(r) && NioHandles(r.nios) <= NioHandles(router.nios)
      ensures r == router.(nios := r.nios)
      ensures runtime.live == old(runtime.live) - (NioHandles(router.nios) - NioHandles(r.nios))
      ensures ok <==> NioHandles(r.nios) == {}
      ensures runtime.faults >= old(runtime.faults) && (ok <==> runtime.faults == old(runtime.faults))
      ensures runtime.tries == old(runtime.tries) + multiset(NioHandles(router.nios))
    {
      r, ok := router, true;
      var unseen := r.nios.Keys;
      ghost var todo := r.nios;
      while unseen != {}
        invariant runtime.Accounted() && HeldOnce(r) && r == router.(nios := r.nios)
        invariant unseen == todo.Keys && todo.Keys <= r.nios.Keys && Injective(todo)
        invariant forall id :: id in todo ==> todo[id] == r.nios[id]
        invariant NioHandles(r.nios) <= NioHandles(router.nios) && NioHandles(r.nios) <= runtime.live
        invariant runtime.live == old(runtime.live) - (NioHandles(router.nios) - NioHandles(r.nios))
        invariant ok <==> r.nios.Keys == unseen
        invariant runtime.faults >= old(runtime.faults) && (ok <==> runtime.faults == old(runtime.faults))
        invariant runtime.tries + multiset(NioHandles(todo)) == old(runtime.tries) + multiset(NioHandles(router.nios))
        decreases unseen
      {
        var id :| id in unseen;
        unseen := unseen - {id};
        RemoveNio(todo, id);
        assert todo[id] in NioHandles(todo);
        todo := todo - {id};
        var deleted;
        r, deleted := DeleteNio(r, id);
        ok := ok && deleted;
      }
      NoHandles(r.nios);
      NoHandles(todo);
    }

    /** One pass of the loop over NIOs. */
    method DeleteNio(router: Router, id: string) returns (r: Router, ok: bool)
      requires runtime.Accounted() && HeldOnce(router) && id in router.nios && NioHandles(router.nios) <= runtime.live
      modifies runtime`live, runtime`deleted, runtime`faults, runtime`tries
      ensures runtime.Accounted() && HeldOnce(r)
      ensures r == if ok then router.(nios := router.nios - {id}) else router
      ensures NioHandles(r.nios) == NioHandles(router.nios) - if ok then {router.nios[id]} else {}
      ensures router.nios[id] in NioHandles(router.nios)
      ensures runtime.live == old(runtime.live) - if ok then {router.nios[id]} else {}
      ensures runtime.faults == old(runtime.faults) + if ok then 0 else 1
      ensures runtime.tries == old(runtime.tries) + multiset{router.nios[id]}
    {
      RemoveNio(router.nios, id);
      r := router;
      assert r.nios[id] in NioHandles(r.nios);
      ok := runtime.Delete(r.nios[id]);
      if ok {
        r := r.(nios := r.nios - {id});
      }
    }

    /** `CreateRouter`, where `alive` is the context's state, and `resolved` is what
        the state directory resolves to, `None` for an error. Whatever fails, every
        VM and NIO allocated is deleted once or reachable from `routers`; `Cleanup`
        is reported exactly when the new router had to be kept for retry. No two
        routers share a name, an instance or a resolved directory. */
    method CreateRouter(cfg: Config, alive: bool, resolved: Option<string>)
      returns (errors: Errors, ghost steps: seq<Setting>)
      requires Valid()
      requires cfg.lease.Some? ==> cfg.lease.value.request.nodeId == cfg.id
      modifies this`routers, runtime
      ensures Valid() && (NothingShared(old(routers)) ==> NothingShared(routers))
      ensures !alive ==> errors == {Context}
      ensures alive && (!ValidConfig(cfg) || Directory(cfg, resolved).None?) ==> errors == {InvalidConfig}
      ensures errors == {Duplicate} <==>
                alive && ValidConfig(cfg) && Directory(cfg, resolved).Some?
                && Occupied(old(routers), cfg, Directory(cfg, resolved).value)
      ensures errors == {} <==>
                alive && ValidConfig(cfg) && Directory(cfg, resolved).Some?
                && !Occupied(old(routers), cfg, Directory(cfg, resolved).value)
                && runtime.faults == old(runtime.faults)
      ensures errors == {} || Cleanup in errors ==>
                && Directory(cfg, resolved).Some? && Adds(old(routers), routers, cfg, Directory(cfg, resolved).value)
      ensures errors == {} ==> SettingsFor(cfg, steps) && Built(old(runtime.log), runtime.log, cfg, routers[cfg.id], steps)
      ensures errors != {} && Cleanup !in errors ==> routers == old(routers) && runtime.live == old(runtime.live)
      ensures Cleanup in errors ==> Handles(routers[cfg.id]) != {}
    {
      steps := [];
      if !alive {
        return {Context}, steps;
      }
      var ok := ValidateConfig(cfg);
      if !ok {
        return {InvalidConfig}, steps;
      }
      var directory := Directory(cfg, resolved);
      if directory.None? {
        return {InvalidConfig}, steps;
      }
      if cfg.id in routers || Clashes(cfg, directory.value) {
        return {Duplicate}, steps;
      }
      errors, steps := BuildRouter(cfg, directory.value);
      if errors == {} || Cleanup in errors {
        NewIsUnshared(old(routers), routers, cfg, directory.value);
      }
    }

    /** The native part of `CreateRouter`. */
    method BuildRouter(cfg: Config, directory: string) returns (errors: Errors, ghost steps: seq<Setting>)
      requires Valid() && cfg.id !in routers && ValidConfig(cfg)
      requires cfg.lease.Some? ==> cfg.lease.value.request.nodeId == cfg.id
      modifies this`routers, runtime
      ensures Valid() && runtime.faults >= old(runtime.faults)
      ensures errors == {} <==> runtime.faults == old(runtime.faults)
      ensures errors <= {CreateFailed, Cleanup} && (errors != {} ==> CreateFailed in errors)
      ensures errors == {} || Cleanup in errors ==> Adds(old(routers), routers, cfg, directory)
      ensures errors == {} ==> SettingsFor(cfg, steps) && Built(old(runtime.log), runtime.log, cfg, routers[cfg.id], steps)
      ensures errors != {} && Cleanup !in errors ==> routers == old(routers) && runtime.live == old(runtime.live)
      ensures Cleanup in errors ==> Handles(routers[cfg.id]) != {}
    {
      steps := [];
      var vm := runtime.NewVm(cfg, directory);
      if vm.None? {
        return {CreateFailed}, steps;
      }
      var router, ok := Router(cfg.name, cfg.instanceId, directory, cfg.lease, vm, map[]), false;
      NewExtra(routers, old(runtime.live), {}, vm.value);
      assert Handles(router) == {vm.value} == {} + {vm.value};
      router, ok, steps := ConfigureRouter(cfg, router);
      if !ok {
        var cleaned, rest;
        FewerExtra(routers, runtime.live, Handles(router), {});
        ghost var live := runtime.live;
        rest, cleaned := CleanupRouter(router);
        FewerExtra(routers, live, Handles(router), Handles(rest));
        LiveAgain(routers, old(runtime.live), runtime.live);
        router := rest;
        if cleaned {
          return {CreateFailed}, steps;
        }
        AddRouter(cfg.id, router);
        return {CreateFailed, Cleanup}, steps;
      }
      AddRouter(cfg.id, router);
      errors := {};
    }

    /** Another router already uses the name, the instance or the directory. */
    predicate Clashes(cfg: Config, directory: string)
      reads this
    {
      exists id :: id in routers &&
        (routers[id].name == cfg.name || routers[id].instanceId == cfg.instanceId
         || (directory != "" && routers[id].stateDirectory == directory))
    }

    /** Stores a router under a new ID: its handles become reachable. */
    method AddRouter(id: string, router: Router)
      requires OwnsAllBut(Handles(router)) && HeldOnce(router) && id !in routers
      requires router.lease.Some? ==> router.lease.value.request.nodeId == id
      modifies this`routers
      ensures Valid() && routers == old(routers)[id := router]
    {
      ExtraBecomesRouter(routers, runtime.live, id, router);
      routers := routers[id := router];
    }

    /** `Delete`, where `alive` is the context's state: removes the router only when
        all of it is gone, which is when no native call failed. */
    method Delete(id: string, alive: bool) returns (errors: Errors)
      requires Valid()
      modifies this`routers, runtime`live, runtime`deleted, runtime`faults, runtime`tries
      ensures Valid()
      ensures errors == {} ==> routers == old(routers) - {id}
      ensures errors != {} ==> routers.Keys == old(routers).Keys
      ensures forall k :: k in routers ==>
                && k in old(routers) && routers[k].lease == old(routers)[k].lease
                && (k != id ==> routers[k] == old(routers)[k])
      ensures NothingShared(old(routers)) ==> NothingShared(routers)
      ensures !alive ==> errors == {Context, Cleanup} && routers == old(routers)
      ensures runtime.faults >= old(runtime.faults)
      ensures alive ==> (errors == {} <==> runtime.faults == old(runtime.faults))
      ensures alive && id in old(routers) ==>
                runtime.tries == old(runtime.tries)
                                 + Tried(old(routers)[id], if id in routers then routers[id] else Emptied(old(routers)[id]))
      ensures !alive || id !in old(routers) ==> runtime.tries == old(runtime.tries)
    {
      if !alive {
        return {Context, Cleanup};
      }
      if id !in routers {
        return {};
      }
      var ok := CleanupTracked(id);
      if !ok {
        return {Cleanup};
      }
      assert routers[id] == Emptied(old(routers)[id]) by {
        EmptyHoldsNothing(routers[id]);
      }
      DropKeepsAll(routers, runtime.live, id);
      routers := routers - {id};
      errors := {};
    }

    /** Cleans up a tracked router in place. */
    method CleanupTracked(id: string) returns (ok: bool)
      requires Valid() && id in routers
      modifies this`routers, runtime`live, runtime`deleted, runtime`faults, runtime`tries
      ensures Valid() && id in routers && routers == old(routers)[id := routers[id]]
      ensures routers[id] == old(routers)[id].(vm := routers[id].vm, nios := routers[id].nios)
      ensures ok <==> Handles(routers[id]) == {}
      ensures runtime.faults >= old(runtime.faults) && (ok <==> runtime.faults == old(runtime.faults))
      ensures runtime.tries == old(runtime.tries) + Tried(old(routers)[id], routers[id])
    {
      HandlesAreLive(routers, runtime.live, id);
      ghost var live := runtime.live;
      var router;
      router, ok := CleanupRouter(routers[id]);
      ShrinkKeepsAll(routers, live, id, router);
      routers := routers[id := router];
    }

    /** `Close`: tries every router; nothing is left exactly when no native call
        failed. */
    method Close() returns (errors: Errors)
      requires Valid()
      modifies this`routers, runtime`live, runtime`deleted, runtime`faults, runtime`tries
      ensures Valid()
      ensures errors == {} ==> routers == map[] && runtime.live == {}
      ensures runtime.faults >= old(runtime.faults) && (errors == {} <==> runtime.faults == old(runtime.faults))
      ensures forall id :: id in old(routers) && old(routers)[id].vm.Some? ==> old(routers)[id].vm.value in runtime.tries
    {
      errors := {};
      var unseen := routers.Keys;
      while unseen != {}
        invariant Valid() && unseen <= routers.Keys && routers.Keys <= old(routers).Keys
        invariant forall id :: id in unseen ==> routers[id] == old(routers)[id]
        invariant errors == {} ==> routers.Keys == unseen
        invariant runtime.faults >= old(runtime.faults) && (errors == {} <==> runtime.faults == old(runtime.faults))
        invariant forall id :: id in old(routers) && id !in unseen && old(routers)[id].vm.Some? ==>
                    old(routers)[id].vm.value in runtime.tries
        decreases unseen
      {
        var id :| id in unseen;
        var failure := Delete(id, true);
        errors := errors + failure;
        unseen := unseen - {id};
      }
      if errors == {} {
        NothingHeld();
        LiveAgain(map[], {}, runtime.live);
      }
    }
  }

  // ------------------------------------------------------------ state leases

  /** The state lease retained for a router. */
  class StateResources {
    var state: Option<Lease>

    constructor (lease: Lease)
      ensures state == Some(lease)
    {
      state := Some(lease);
    }
  }

  ghost function HeldLease(resources: StateResources?): set<nat>
    reads resources
  {
    if resources == null || resources.state.None? then {} else {resources.state.value.id}
  }

  /** The lease of router `id` is held and genuine. */
  ghost predicate LeaseHeld(routers: map<string, Router>, live: set<nat>, issued: map<nat, Lease>, id: string) {
    id in routers && routers[id].lease.Some? ==>
      var lease := routers[id].lease.value;
      lease.id in live && lease.id in issued && issued[lease.id] == lease
  }

  ghost predicate LeasesHeld(routers: map<string, Router>, live: set<nat>, issued: map<nat, Lease>) {
    forall id :: LeaseHeld(routers, live, issued, id)
  }

  ghost predicate Uses(routers: map<string, Router>, lease: nat) {
    exists id :: id in routers && routers[id].lease.Some? && routers[id].lease.value.id == lease
  }

  lemma MoreLeases(routers: map<string, Router>, live: set<nat>, issued: map<nat, Lease>, lease: Lease)
    requires LeasesHeld(routers, live, issued) && lease.id !in issued
    ensures LeasesHeld(routers, live + {lease.id}, issued[lease.id := lease]) && !Uses(routers, lease.id)
  {
    var live', issued' := live + {lease.id}, issued[lease.id := lease];
    forall id ensures LeaseHeld(routers, live', issued', id) {
      assert LeaseHeld(routers, live, issued, id);
    }
    forall id | id in routers && routers[id].lease.Some? ensures routers[id].lease.value.id != lease.id {
      assert LeaseHeld(routers, live, issued, id);
    }
  }

  lemma FewerLeases(routers: map<string, Router>, live: set<nat>, issued: map<nat, Lease>, lease: nat)
    requires LeasesHeld(routers, live, issued) && !Uses(routers, lease)
    ensures LeasesHeld(routers, live - {lease}, issued)
  {
    var live' := live - {lease};
    forall id ensures LeaseHeld(routers, live', issued, id) {
      assert LeaseHeld(routers, live, issued, id);
    }
  }

  lemma OneMoreRouter(was: map<string, Router>, now: map<string, Router>, live: set<nat>, issued: map<nat, Lease>,
                      id: string, lease: Lease)
    requires LeasesHeld(was, live, issued) && id in now && now == was[id := now[id]] && now[id].lease == Some(lease)
    requires lease.id in live && lease.id in issued && issued[lease.id] == lease
    ensures LeasesHeld(now, live, issued)
  {
    forall k ensures LeaseHeld(now, live, issued, k) {
      assert LeaseHeld(was, live, issued, k);
    }
  }

  lemma FewerRouters(was: map<string, Router>, now: map<string, Router>, live: set<nat>, issued: map<nat, Lease>)
    requires LeasesHeld(was, live, issued)
    requires forall k :: k in now ==> k in was && now[k].lease == was[k].lease
    ensures LeasesHeld(now, live, issued)
  {
    forall k ensures LeaseHeld(now, live, issued, k) {
      assert LeaseHeld(was, live, issued, k);
    }
  }

  /** A genuine lease of node `id` is used by no other router. */
  lemma OnlyItsOwnRouter(routers: map<string, Router>, live: set<nat>, issued: map<nat, Lease>, lease: Lease)
    requires LeasesHeld(routers, live, issued) && Separate(routers)
    requires lease.id in issued && issued[lease.id] == lease && lease.request.nodeId !in routers
    ensures !Uses(routers, lease.id)
  {
    forall id | id in routers && routers[id].lease.Some? ensures routers[id].lease.value.id != lease.id {
      assert LeaseHeld(routers, live, issued, id) && RouterOk(routers, id);
    }
  }

  /** The router manager: a lease per router, prepared before it and released
      after it. */
  class StateManager {
    const storage: Storage
    const adapter: Adapter

    constructor (storage: Storage, adapter: Adapter)
      ensures this.storage == storage && this.adapter == adapter
    {
      this.storage, this.adapter := storage, adapter;
    }

    /** Some router, even one only partly cleaned up, was created on the lease. */
    ghost predicate InUse(lease: nat)
      reads adapter`routers
    {
      Uses(adapter.routers, lease)
    }

    /** No lease of a router that still holds anything has been released. */
    ghost predicate Valid()
      reads storage, adapter`routers
      reads adapter.runtime`next, adapter.runtime`live, adapter.runtime`deleted
    {
      storage.Accounted() && adapter.Valid() && LeasesHeld(adapter.routers, storage.live, storage.issued)
    }

    /** `Release`: the router must be gone. */
    method Release(resources: StateResources) returns (failed: bool)
      requires Valid() && HeldLease(resources) <= storage.live
      requires resources.state.Some? ==> !InUse(resources.state.value.id)
      modifies storage`live, storage`released, storage`attempts, storage`faults, resources
      ensures Valid() && storage.live == old(storage.live) - old(HeldLease(resources)) + HeldLease(resources)
      ensures failed <==> resources.state.Some?
      ensures failed ==> resources.state == old(resources.state)
      ensures storage.faults == old(storage.faults) + if failed then 1 else 0
    {
      if resources.state.None? {
        return false;
      }
      FewerLeases(adapter.routers, storage.live, storage.issued, resources.state.value.id);
      var ok := storage.Release(resources.state.value);
      if ok {
        resources.state := None;
      }
      failed := !ok;
    }

    /** `Prepare`: a lease on an absolute path, or nothing, or a lease that could
        not be given back. */
    method Prepare(state: string, nodeId: string) returns (lease: Option<Lease>, resources: StateResources?)
      requires Valid()
      modifies storage
      ensures Valid() && adapter.routers == old(adapter.routers)
      ensures resources != null ==> fresh(resources) && resources.state.Some?
      ensures resources != null ==>
                resources.state.value.request == Request(state, nodeId, false) && !InUse(resources.state.value.id)
      ensures resources != null ==> storage.Genuine(resources.state.value)
      ensures lease.Some? ==> resources != null && resources.state == lease
      ensures storage.live == old(storage.live) + HeldLease(resources) && HeldLease(resources) !! old(storage.live)
      ensures storage.faults >= old(storage.faults)
      ensures lease.Some? <==> nodeId != "" && state != "" && storage.faults == old(storage.faults)
                               && UsableAt(storage, old(storage.next))
      ensures lease.Some? ==> lease.value == storage.issued[old(storage.next)]
      ensures lease.None? && storage.faults == old(storage.faults) ==> resources == null
    {
      lease, resources := None, null;
      if nodeId == "" || state == "" {
        return;
      }
      var prepared := storage.Prepare(Request(state, nodeId, false));
      if prepared.None? {
        return;
      }
      MoreLeases(adapter.routers, old(storage.live), old(storage.issued), prepared.value);
      resources := new StateResources(prepared.value);
      if !prepared.value.onPath || !IsAbsolute(prepared.value.location) {
        var failed := Release(resources);
        if !failed {
          resources := null;
        }
        return;
      }
      lease := prepared;
    }

    /** `Create`: the lease is given back only when nothing of the router is left;
        after a failed native cleanup it stays with the caller. */
    method Create(cfg: Config, state: string, alive: bool, resolved: Option<string>)
      returns (errors: Errors, resources: StateResources?)
      requires Valid()
      modifies storage, adapter`routers, adapter.runtime
      ensures Valid()
      ensures resources != null ==> fresh(resources)
      ensures storage.live == old(storage.live) + HeldLease(resources) && HeldLease(resources) !! old(storage.live)
      ensures errors == {} <==>
                && cfg.id != "" && state != "" && UsableAt(storage, old(storage.next))
                && CanCreate(old(adapter.routers), cfg, storage.issued[old(storage.next)], alive, resolved)
                && storage.faults == old(storage.faults) && adapter.runtime.faults == old(adapter.runtime.faults)
      ensures errors == {} ==> cfg.id in adapter.routers && resources != null && resources.state.Some?
                               && adapter.routers[cfg.id].lease == resources.state
      ensures resources == null ==> errors != {}
      ensures errors != {} && Cleanup !in errors ==> adapter.routers == old(adapter.routers)
      ensures errors != {} && Cleanup !in errors && storage.faults == old(storage.faults) ==> resources == null
      ensures errors == {} || Cleanup in errors ==>
                && cfg.id !in old(adapter.routers) && cfg.id in adapter.routers && resources != null
                && adapter.routers == old(adapter.routers)[cfg.id := adapter.routers[cfg.id]]
                && Some(adapter.routers[cfg.id].stateDirectory) == resolved
      ensures NothingShared(old(adapter.routers)) ==> NothingShared(adapter.routers)
      ensures resources != null && resources.state.Some? ==>
                resources.state.value.request == Request(state, cfg.id, false) && storage.Genuine(resources.state.value)
    {
      var lease;
      lease, resources := Prepare(state, cfg.id);
      if lease.None? {
        return {CreateFailed}, resources;
      }
      ghost var steps;
      errors, steps := adapter.CreateRouter(OnLease(cfg, lease.value), alive, resolved);
      if errors == {} || Cleanup in errors {
        OneMoreRouter(old(adapter.routers), adapter.routers, storage.live, storage.issued, cfg.id, lease.value);
        return;
      }
      var failed := Release(resources);
      if !failed {
        resources := null;
      }
    }

    /** `Delete`: the router first, its lease only after that succeeded. */
    method Delete(id: string, resources: StateResources, alive: bool) returns (errors: Errors)
      requires Valid() && HeldLease(resources) <= storage.live
      requires resources.state.Some? ==> storage.Genuine(resources.state.value)
      modifies storage`live, storage`released, storage`attempts, storage`faults, resources
      modifies adapter`routers, adapter.runtime
      ensures Valid()
      ensures storage.live == old(storage.live) - old(HeldLease(resources)) + HeldLease(resources)
      ensures errors == {} <==>
                && (old(resources.state).Some? ==> old(resources.state).value.request.nodeId == id) && alive
                && storage.faults == old(storage.faults) && adapter.runtime.faults == old(adapter.runtime.faults)
      ensures errors == {} ==> resources.state.None? && adapter.routers == old(adapter.routers) - {id}
      ensures errors != {} ==> adapter.routers == old(adapter.routers) - {id}
                               || adapter.routers.Keys == old(adapter.routers).Keys
      ensures id in adapter.routers ==> resources.state == old(resources.state)
      ensures resources.state == old(resources.state) || resources.state.None?
    {
      if resources.state.Some? && resources.state.value.request.nodeId != id {
        return {InvalidConfig};
      }
      errors := adapter.Delete(id, alive);
      FewerRouters(old(adapter.routers), adapter.routers, storage.live, storage.issued);
      if errors != {} {
        return;
      }
      if resources.state.Some? {
        OnlyItsOwnRouter(adapter.routers, storage.live, storage.issued, resources.state.value);
      }
      var failed := Release(resources);
      if failed {
        errors := {Cleanup};
      }
    }

    /** What a topology does with a router that could not be created but left
        resources: it tracks them and later deletes them under the router's ID. When
        the adapter is shared and another run already has a router of that ID, the
        deletion hits the other run's router, and only then does it remove one. */
    method CreateThenDelete(cfg: Config, state: string, alive: bool, resolved: Option<string>)
      returns (created: Errors, resources: StateResources?, deleted: Errors)
      requires Valid()
      modifies storage, adapter`routers, adapter.runtime
      ensures Valid()
      ensures created != {} && resources != null && deleted == {} ==>
                && adapter.routers == old(adapter.routers) - {cfg.id}
                && (adapter.routers != old(adapter.routers) <==> cfg.id in old(adapter.routers))
      ensures created != {} && resources == null ==> adapter.routers == old(adapter.routers)
      ensures cfg.id in old(adapter.routers) ==> created != {}
    {
      created, resources := Create(cfg, state, alive, resolved);
      deleted := {};
      if created != {} && resources != null {
        deleted := Delete(cfg.id, resources, true);
      }
    }
  }

  /** A lease handed out under this number, on an absolute path. */
  ghost predicate UsableAt(storage: Storage, id: nat)
    reads storage
  {
    && id in storage.issued && storage.issued[id].onPath
    && |storage.issued[id].location| > 0 && storage.issued[id].location[0] == '/'
  }

  /** The configuration of a router that works in the location of its lease. */
  function OnLease(cfg: Config, lease: Lease): Config {
    cfg.(lease := Some(lease), stateDirectory := lease.location)
  }

  /** What must hold for a router on `lease` to be created. */
  ghost predicate CanCreate(routers: map<string, Router>, cfg: Config, lease: Lease, alive: bool, resolved: Option<string>) {
    && alive && ValidConfig(OnLease(cfg, lease)) && resolved.Some?
    && !Occupied(routers, OnLease(cfg, lease), resolved.value)
  }

  /** Two runs on one adapter that use the same node ID: the second cannot create its
      router and cannot give its lease back at once, and what it then deletes is the
      router of the first. */
  method SecondRunDeletesTheFirst(cfg: Config, state: string, resolved: Option<string>)
    returns (manager: StateManager, first: Errors, second: Errors, resources: StateResources?, deleted: Errors)
    ensures first == {} ==> second != {}
    ensures first == {} && resources != null && deleted == {} ==> cfg.id !in manager.adapter.routers
  {
    var storage := new Storage();
    var runtime := new Runtime();
    var adapter := new Adapter(runtime);
    manager := new StateManager(storage, adapter);
    forall id ensures LeaseHeld(adapter.routers, storage.live, storage.issued, id) {
    }
    var kept;
    first, kept := manager.Create(cfg, state, true, resolved);
    second, resources, deleted := manager.CreateThenDelete(cfg, state, true, resolved);
  }
}
