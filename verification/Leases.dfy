/** Storage leases held for workloads (`storage/release.go`,
    `virt/container/manager.go`, `virt/domain/manager.go`). The storage manager
    and the workload provider may fail at any call. */
module Leases {
  import opened Options

  /** What is asked of storage: a resource, for a node, perhaps to read only. */
  datatype Request = Request(source: string, nodeId: string, readOnly: bool)

  /** A prepared storage resource; `onPath` says that it resolved to a path. */
  datatype Lease = Lease(id: nat, location: string, onPath: bool, request: Request)

  ghost function Ids(leases: seq<Lease>): set<nat> {
    set i | 0 <= i < |leases| :: leases[i].id
  }

  ghost predicate Distinct(leases: seq<Lease>) {
    forall i, j :: 0 <= i < j < |leases| ==> leases[i].id != leases[j].id
  }

  lemma IdsAppend(a: seq<Lease>, b: seq<Lease>)
    ensures Ids(a + b) == Ids(a) + Ids(b)
  {
    forall i | 0 <= i < |a| ensures a[i].id in Ids(a + b) {
      assert (a + b)[i] == a[i];
    }
    forall i | 0 <= i < |b| ensures b[i].id in Ids(a + b) {
      assert (a + b)[|a| + i] == b[i];
    }
  }

  lemma IdsOfOne(leases: seq<Lease>, l: Lease)
    ensures Ids(leases + [l]) == Ids(leases) + {l.id}
  {
    IdsAppend(leases, [l]);
    assert [l][0].id in Ids([l]);
  }

  /** The storage manager. `live` holds the leases acquired and not released,
      `attempts` the releases tried, in order; `faults` counts the calls that failed
      and `offPath` the leases that did not resolve to a path. */
  class Storage {
    var next: nat
    ghost var live: set<nat>
    ghost var released: set<nat>
    ghost var attempts: seq<nat>
    ghost var issued: map<nat, Lease>
    ghost var faults: nat
    ghost var offPath: nat

    /** Every lease ever handed out is live or was released, never both. */
    ghost predicate Accounted()
      reads this
    {
      && live !! released
      && (forall id :: id in live || id in released <==> 0 <= id < next)
      && (forall id :: id in issued <==> 0 <= id < next)
    }

    /** A lease this storage handed out. */
    ghost predicate Genuine(l: Lease)
      reads this
    {
      l.id in issued && issued[l.id] == l
    }

    constructor ()
      ensures Accounted() && live == {} && released == {} && attempts == []
    {
      next, live, released, attempts, issued, faults, offPath := 0, {}, {}, [], map[], 0, 0;
    }

    /** Prepares a lease, or fails without acquiring anything. */
    method Prepare(request: Request) returns (r: Option<Lease>)
      requires Accounted()
      modifies this
      ensures faults == old(faults) + if r.None? then 1 else 0
      ensures offPath == old(offPath) + if r.Some? && !r.value.onPath then 1 else 0
      ensures Accounted() && released == old(released) && attempts == old(attempts) && next >= old(next)
      ensures r.None? ==> live == old(live) && issued == old(issued)
      ensures r.Some? ==> live == old(live) + {r.value.id} && r.value.id == old(next) && r.value.request == request
      ensures r.Some? ==> r.value.id !in old(issued) && issued == old(issued)[r.value.id := r.value]
      ensures r.Some? ==> r.value.id !in old(live)
    {
      var fails: bool, location: string, onPath: bool := *, *, *;
      if fails {
        faults := faults + 1;
        return None;
      }
      if !onPath {
        offPath := offPath + 1;
      }
      r := Some(Lease(next, location, onPath, request));
      live, issued := live + {next}, issued[next := r.value];
      next := next + 1;
    }

    /** Releases a live lease, or fails and leaves it live. A lease that was
        released before may not be passed again. */
    method Release(l: Lease) returns (ok: bool)
      requires Accounted() && l.id in live
      modifies this`live, this`released, this`attempts, this`faults
      ensures faults == old(faults) + if ok then 0 else 1
      ensures Accounted() && attempts == old(attempts) + [l.id]
      ensures live == if ok then old(live) - {l.id} else old(live)
      ensures released == if ok then old(released) + {l.id} else old(released)
    {
      ok := *;
      attempts := attempts + [l.id];
      if ok {
        live, released := live - {l.id}, released + {l.id};
      } else {
        faults := faults + 1;
      }
    }
  }

  // ------------------------------------------------------------ survivors

  /** The leases whose release failed, in order. */
  ghost function Survivors(leases: seq<Lease>, outcomes: seq<bool>): seq<Lease>
    requires |leases| == |outcomes|
  {
    if leases == [] then []
    else
      var n := |leases| - 1;
      var front := Survivors(leases[..n], outcomes[..n]);
      if outcomes[n] then front else front + [leases[n]]
  }

  lemma {:induction false} SurvivorsAreSome(leases: seq<Lease>, outcomes: seq<bool>)
    requires |leases| == |outcomes|
    ensures |Survivors(leases, outcomes)| <= |leases|
    ensures Ids(Survivors(leases, outcomes)) <= Ids(leases)
    ensures Distinct(leases) ==> Distinct(Survivors(leases, outcomes))
    decreases |leases|
  {
    if leases != [] {
      var n := |leases| - 1;
      SurvivorsAreSome(leases[..n], outcomes[..n]);
      assert leases == leases[..n] + [leases[n]];
      IdsOfOne(leases[..n], leases[n]);
      var front := Survivors(leases[..n], outcomes[..n]);
      IdsOfOne(front, leases[n]);
      if Distinct(leases) {
        assert Distinct(leases[..n]);
        forall i | 0 <= i < |front| ensures front[i].id != leases[n].id {
          assert front[i].id in Ids(leases[..n]);
        }
      }
    }
  }

  lemma SurvivorsNext(leases: seq<Lease>, outcomes: seq<bool>, i: nat, ok: bool)
    requires i < |leases| && |outcomes| == i
    ensures Survivors(leases[..i + 1], outcomes + [ok]) ==
            Survivors(leases[..i], outcomes) + if ok then [] else [leases[i]]
  {
    assert leases[..i + 1][..i] == leases[..i] && (outcomes + [ok])[..i] == outcomes;
  }

  ghost function Failures(outcomes: seq<bool>): (n: nat)
    ensures n <= |outcomes|
  {
    if outcomes == [] then 0
    else Failures(outcomes[..|outcomes| - 1]) + if outcomes[|outcomes| - 1] then 0 else 1
  }

  /** Which leases are gone after a round and a retry of its failures. */
  ghost function Retried(first: seq<bool>, second: seq<bool>): (both: seq<bool>)
    requires |second| == Failures(first)
    ensures |both| == |first|
  {
    if first == [] then []
    else
      var n, m := |first| - 1, |second| - 1;
      if first[n] then Retried(first[..n], second) + [true]
      else Retried(first[..n], second[..m]) + [second[m]]
  }

  lemma {:induction false} SurvivorsCount(leases: seq<Lease>, outcomes: seq<bool>)
    requires |leases| == |outcomes|
    ensures |Survivors(leases, outcomes)| == Failures(outcomes)
    decreases |leases|
  {
    if leases != [] {
      SurvivorsCount(leases[..|leases| - 1], outcomes[..|leases| - 1]);
    }
  }

  /** A retry works on exactly the survivors, in order: after it, what remains of
      the original leases is what failed both times. */
  lemma {:induction false} RetryDrainsSurvivors(leases: seq<Lease>, first: seq<bool>, second: seq<bool>)
    requires |first| == |leases| && |second| == Failures(first)
    ensures |Survivors(leases, first)| == |second|
    ensures Survivors(leases, Retried(first, second)) == Survivors(Survivors(leases, first), second)
    decreases |leases|
  {
    SurvivorsCount(leases, first);
    if leases != [] {
      var n, m := |leases| - 1, |second| - 1;
      var front := Survivors(leases[..n], first[..n]);
      SurvivorsCount(leases[..n], first[..n]);
      if first[n] {
        RetryDrainsSurvivors(leases[..n], first[..n], second);
        assert (Retried(first[..n], second) + [true])[..n] == Retried(first[..n], second);
      } else {
        RetryDrainsSurvivors(leases[..n], first[..n], second[..m]);
        assert (front + [leases[n]])[..m] == front;
        assert (Retried(first[..n], second[..m]) + [second[m]])[..n] == Retried(first[..n], second[..m]);
      }
    }
  }

  ghost function Somes(leases: seq<Lease>): (r: seq<Option<Lease>>)
    ensures |r| == |leases|
  {
    seq(|leases|, i requires 0 <= i < |leases| => Some(leases[i]))
  }

  /** `ReleaseResources`: tries every lease once, in order, moves the failures to
      the front of the same slice and clears the rest. */
  method ReleaseResources(storage: Storage, slots: array<Option<Lease>>, count: nat, ghost leases: seq<Lease>)
    returns (kept: nat, ghost outcomes: seq<bool>)
    requires storage.Accounted()
    requires count <= slots.Length && slots[..count] == Somes(leases)
    requires Distinct(leases) && Ids(leases) <= storage.live
    modifies slots, storage`live, storage`released, storage`attempts, storage`faults
    ensures storage.faults == old(storage.faults) + kept
    ensures storage.Accounted()
    ensures |outcomes| == |leases| && kept <= count
    ensures slots[..kept] == Somes(Survivors(leases, outcomes))
    ensures forall i :: kept <= i < count ==> slots[i].None?
    ensures storage.live == old(storage.live) - Ids(leases) + Ids(Survivors(leases, outcomes))
    ensures storage.attempts == old(storage.attempts) + Attempted(leases)
  {
    kept, outcomes := 0, [];
    ghost var front: seq<Lease> := [];
    NothingTried(slots[..], leases, count);
    for i := 0 to count
      invariant storage.Accounted() && |outcomes| == i && kept <= i
      invariant front == Survivors(leases[..i], outcomes) && |front| == kept
      invariant LaidOut(slots[..], leases, front, i, count)
      invariant storage.live == old(storage.live) - Ids(leases[..i]) + Ids(front)
      invariant storage.attempts == old(storage.attempts) + Attempted(leases[..i])
      invariant storage.faults == old(storage.faults) + kept
    {
      assert slots[..][i] == Some(leases[i]) by {
        assert LaidAt(slots[..], leases, front, i, i);
      }
      var lease := slots[i].value;
      var ok := ReleaseNext(storage, lease, leases, outcomes, i, old(storage.live));
      outcomes := outcomes + [ok];
      if ok {
        DroppedNext(slots[..], leases, front, i, count);
      } else {
        KeptNext(slots[..], leases, front, i, count);
        slots[kept] := Some(lease);
        kept, front := kept + 1, front + [lease];
      }
    }
    assert leases[..count] == leases;
    SurvivorsInFront(slots[..], leases, front, count);
    assert slots[..][..kept] == slots[..kept];
    Clear(slots, kept, count);
  }

  /** The slice while it is compacted: the survivors, then what is still to be
      tried. */
  ghost predicate LaidOut(slots: seq<Option<Lease>>, leases: seq<Lease>, front: seq<Lease>, i: nat, count: nat) {
    && |front| <= i <= count == |leases| && count <= |slots|
    && forall j: nat :: LaidAt(slots, leases, front, i, j)
  }

  ghost predicate LaidAt(slots: seq<Option<Lease>>, leases: seq<Lease>, front: seq<Lease>, i: nat, j: nat) {
    && (j < |front| && j < |slots| ==> slots[j] == Some(front[j]))
    && (i <= j < |leases| && j < |slots| ==> slots[j] == Some(leases[j]))
  }

  lemma SurvivorsInFront(slots: seq<Option<Lease>>, leases: seq<Lease>, front: seq<Lease>, count: nat)
    requires LaidOut(slots, leases, front, count, count)
    ensures slots[..|front|] == Somes(front)
  {
    forall j: nat | j < |front| ensures slots[j] == Some(front[j]) {
      assert LaidAt(slots, leases, front, count, j);
    }
  }

  lemma NothingTried(slots: seq<Option<Lease>>, leases: seq<Lease>, count: nat)
    requires count <= |slots| && slots[..count] == Somes(leases)
    ensures LaidOut(slots, leases, [], 0, count)
  {
    forall j: nat ensures LaidAt(slots, leases, [], 0, j) {
      if j < |leases| {
        assert slots[..count][j] == Some(leases[j]);
      }
    }
  }

  lemma KeptNext(slots: seq<Option<Lease>>, leases: seq<Lease>, front: seq<Lease>, i: nat, count: nat)
    requires LaidOut(slots, leases, front, i, count) && i < count
    ensures LaidOut(slots[|front| := Some(leases[i])], leases, front + [leases[i]], i + 1, count)
  {
    var moved, more := slots[|front| := Some(leases[i])], front + [leases[i]];
    var n := i + 1;
    forall j: nat ensures LaidAt(moved, leases, more, n, j) {
      assert LaidAt(slots, leases, front, i, j);
    }
  }

  lemma DroppedNext(slots: seq<Option<Lease>>, leases: seq<Lease>, front: seq<Lease>, i: nat, count: nat)
    requires LaidOut(slots, leases, front, i, count) && i < count
    ensures LaidOut(slots, leases, front, i + 1, count)
  {
    var n := i + 1;
    forall j: nat ensures LaidAt(slots, leases, front, n, j) {
      assert LaidAt(slots, leases, front, i, j);
    }
  }

  /** One release of the loop, with its effect on the accounts. */
  method ReleaseNext(storage: Storage, lease: Lease, ghost leases: seq<Lease>, ghost outcomes: seq<bool>,
                     ghost i: nat, ghost live: set<nat>)
    returns (ok: bool)
    requires storage.Accounted() && Distinct(leases) && Ids(leases) <= live
    requires i < |leases| && |outcomes| == i && lease == leases[i]
    requires storage.live == live - Ids(leases[..i]) + Ids(Survivors(leases[..i], outcomes))
    modifies storage`live, storage`released, storage`attempts, storage`faults
    ensures storage.Accounted() && storage.faults == old(storage.faults) + if ok then 0 else 1
    ensures Survivors(leases[..i + 1], outcomes + [ok]) ==
            Survivors(leases[..i], outcomes) + if ok then [] else [lease]
    ensures storage.live == live - Ids(leases[..i + 1]) + Ids(Survivors(leases[..i + 1], outcomes + [ok]))
    ensures storage.attempts == old(storage.attempts) + [lease.id]
    ensures Attempted(leases[..i + 1]) == Attempted(leases[..i]) + [lease.id]
  {
    LeaseIsStillLive(leases, i);
    ok := storage.Release(lease);
    ReleaseStep(leases, outcomes, i, ok, live);
  }

  /** `clear(slots[from:to])`. */
  method Clear(slots: array<Option<Lease>>, from: nat, to: nat)
    requires from <= to <= slots.Length
    modifies slots
    ensures forall i :: from <= i < to ==> slots[i].None?
    ensures slots[..from] == old(slots[..from]) && slots[to..] == old(slots[to..])
  {
    for i := from to to
      invariant forall j :: from <= j < i ==> slots[j].None?
      invariant slots[..from] == old(slots[..from]) && slots[to..] == old(slots[to..])
    {
      slots[i] := None;
    }
  }

  ghost function Attempted(leases: seq<Lease>): seq<nat> {
    seq(|leases|, i requires 0 <= i < |leases| => leases[i].id)
  }

  /** A lease not yet tried is neither among the tried ones nor their survivors. */
  lemma LeaseIsStillLive(leases: seq<Lease>, i: nat)
    requires Distinct(leases) && i < |leases|
    ensures leases[i].id !in Ids(leases[..i]) && leases[i].id in Ids(leases)
  {
    assert forall j :: 0 <= j < i ==> leases[..i][j] == leases[j];
  }

  lemma ReleaseStep(leases: seq<Lease>, outcomes: seq<bool>, i: nat, ok: bool, live: set<nat>)
    requires Distinct(leases) && i < |leases| && |outcomes| == i && Ids(leases) <= live
    ensures var before := Survivors(leases[..i], outcomes);
            var after := Survivors(leases[..i + 1], outcomes + [ok]);
            && after == before + (if ok then [] else [leases[i]])
            && live - Ids(leases[..i + 1]) + Ids(after) ==
               (live - Ids(leases[..i]) + Ids(before)) - (if ok then {leases[i].id} else {})
    ensures Attempted(leases[..i + 1]) == Attempted(leases[..i]) + [leases[i].id]
  {
    var front, before, l := leases[..i], Survivors(leases[..i], outcomes), leases[i];
    SurvivorsNext(leases, outcomes, i, ok);
    SurvivorsAreSome(front, outcomes);
    LeaseIsStillLive(leases, i);
    assert leases[..i + 1] == front + [l];
    IdsAfter(front, before, l, ok);
    OneMoreTried(live, Ids(front), Ids(before), l.id, ok);
  }

  lemma IdsAfter(front: seq<Lease>, before: seq<Lease>, l: Lease, ok: bool)
    ensures Ids(front + [l]) == Ids(front) + {l.id}
    ensures Ids(before + if ok then [] else [l]) == if ok then Ids(before) else Ids(before) + {l.id}
  {
    IdsOfOne(front, l);
    IdsOfOne(before, l);
    assert before + [] == before;
  }

  /** What is live once one more lease was tried. */
  lemma OneMoreTried(live: set<nat>, tried: set<nat>, kept: set<nat>, id: nat, ok: bool)
    requires kept <= tried && id !in tried && id in live
    ensures live - (tried + {id}) + (if ok then kept else kept + {id}) ==
            (live - tried + kept) - (if ok then {id} else {})
  {
  }

  // ------------------------------------------------------------ the managers

  datatype Volume = Volume(source: string, target: string, readOnly: bool)

  datatype Mount = Mount(source: string, target: string, readOnly: bool)

  /** The leases owned by a workload. */
  class PreparedResources {
    var slots: array<Option<Lease>>
    var count: nat
    ghost var leases: seq<Lease>

    ghost predicate Valid()
      reads this, slots
    {
      && count == |leases| && count <= slots.Length
      && slots[..count] == Somes(leases)
      && Distinct(leases)
    }

    constructor (capacity: nat)
      ensures Valid() && leases == [] && fresh(slots) && slots.Length == capacity
    {
      slots := new Option<Lease>[capacity](i => None);
      count, leases := 0, [];
      new;
      assert slots[..0] == Somes([]);
    }

    method Append(l: Lease)
      requires Valid() && count < slots.Length && l.id !in Ids(leases)
      modifies this`count, this`leases, slots
      ensures Valid() && leases == old(leases) + [l]
    {
      forall i | 0 <= i < count ensures leases[i].id != l.id {
        assert leases[i].id in Ids(leases);
      }
      slots[count] := Some(l);
      count, leases := count + 1, leases + [l];
      assert slots[..count] == Somes(leases);
    }
  }

  /** What a caller must still release. */
  ghost function Owned(resources: PreparedResources?): set<nat>
    reads resources
  {
    if resources == null then {} else Ids(resources.leases)
  }

  /** The container and domain managers, which prepare one lease per volume or
      disk and roll back on every failure. */
  class Manager {
    const storage: Storage

    constructor (storage: Storage)
      ensures this.storage == storage
    {
      this.storage := storage;
    }

    /** `Release`: an error exactly when leases remain, which is when a release
        failed. */
    method Release(resources: PreparedResources) returns (failed: bool, ghost outcomes: seq<bool>)
      requires storage.Accounted() && resources.Valid() && Ids(resources.leases) <= storage.live
      modifies storage`live, storage`released, storage`attempts, storage`faults
      modifies resources`count, resources`leases, resources.slots
      ensures storage.Accounted() && resources.Valid()
      ensures |outcomes| == |old(resources.leases)|
      ensures resources.leases == Survivors(old(resources.leases), outcomes)
      ensures failed <==> resources.leases != []
      ensures storage.live == old(storage.live) - Ids(old(resources.leases)) + Ids(resources.leases)
      ensures storage.attempts == old(storage.attempts) + Attempted(old(resources.leases))
      ensures storage.faults == old(storage.faults) + |resources.leases|
    {
      var kept;
      kept, outcomes := ReleaseResources(storage, resources.slots, resources.count, resources.leases);
      SurvivorsAreSome(resources.leases, outcomes);
      resources.count := kept;
      resources.leases := Survivors(resources.leases, outcomes);
      failed := kept > 0;
    }

    /** `rollback`: hands back only what could not be released. */
    method Rollback(resources: PreparedResources) returns (remaining: PreparedResources?)
      requires storage.Accounted() && resources.Valid() && Ids(resources.leases) <= storage.live
      modifies storage`live, storage`released, storage`attempts, storage`faults
      modifies resources`count, resources`leases, resources.slots
      ensures storage.Accounted() && (remaining == null || (remaining == resources && resources.Valid()))
      ensures storage.live == old(storage.live) - Ids(old(resources.leases)) + Owned(remaining)
      ensures Owned(remaining) <= Ids(old(resources.leases))
      ensures storage.attempts == old(storage.attempts) + Attempted(old(resources.leases))
      ensures storage.faults >= old(storage.faults) && (remaining == null <==> storage.faults == old(storage.faults))
    {
      var failed, outcomes := Release(resources);
      SurvivorsAreSome(old(resources.leases), outcomes);
      if failed {
        return resources;
      }
      assert Ids(resources.leases) == {};
      remaining := null;
    }

    /** `Prepare`: every lease acquired is owned by the returned resources or was
        released; when nothing goes wrong, and only then, there is one mount per
        volume, in order. */
    method Prepare(nodeId: string, volumes: seq<Volume>)
      returns (mounts: Option<seq<Mount>>, resources: PreparedResources?)
      requires storage.Accounted()
      modifies storage
      ensures storage.Accounted()
      ensures resources != null ==> resources.Valid() && fresh(resources) && fresh(resources.slots)
      ensures storage.live == old(storage.live) + Owned(resources) && Owned(resources) !! old(storage.live)
      ensures storage.faults >= old(storage.faults) && storage.offPath >= old(storage.offPath)
      ensures mounts.Some? <==> storage.faults == old(storage.faults) && storage.offPath == old(storage.offPath)
      ensures mounts.None? && storage.faults == old(storage.faults) ==> resources == null
      ensures mounts.Some? ==> resources != null && Mounted(nodeId, volumes, resources.leases, mounts.value)
    {
      var r := new PreparedResources(|volumes|);
      var done: seq<Mount> := [];
      for i := 0 to |volumes|
        invariant storage.Accounted() && r.Valid() && fresh(r) && fresh(r.slots) && r.slots.Length == |volumes|
        invariant storage.live == old(storage.live) + Ids(r.leases) && Ids(r.leases) !! old(storage.live)
        invariant storage.faults == old(storage.faults) && storage.offPath == old(storage.offPath)
        invariant Mounted(nodeId, volumes[..i], r.leases, done)
      {
        var mount := PrepareNext(nodeId, volumes[i], r);
        if mount.None? {
          resources := Rollback(r);
          return None, resources;
        }
        done := done + [mount.value];
      }
      assert volumes[..|volumes|] == volumes;
      mounts, resources := Some(done), r;
    }

    /** One volume: its lease is kept even when it is of no use. */
    method PrepareNext(nodeId: string, volume: Volume, r: PreparedResources) returns (mount: Option<Mount>)
      requires storage.Accounted() && r.Valid() && |r.leases| < r.slots.Length && Ids(r.leases) <= storage.live
      modifies storage, r`count, r`leases, r.slots
      ensures storage.Accounted() && r.Valid() && old(r.leases) <= r.leases
      ensures storage.live == old(storage.live) + Ids(r.leases)
      ensures Ids(r.leases) - Ids(old(r.leases)) !! old(storage.live)
      ensures mount.Some? <==> storage.faults == old(storage.faults) && storage.offPath == old(storage.offPath)
      ensures storage.faults >= old(storage.faults) && storage.offPath >= old(storage.offPath)
      ensures mount.Some? ==>
                && |r.leases| == |old(r.leases)| + 1
                && var lease := r.leases[|old(r.leases)|];
                   && lease.onPath && lease.request == Request(volume.source, nodeId, volume.readOnly)
                   && mount.value == Mount(lease.location, volume.target, volume.readOnly)
    {
      var prepared := storage.Prepare(Request(volume.source, nodeId, volume.readOnly));
      if prepared.None? {
        return None;
      }
      IdsOfOne(r.leases, prepared.value);
      r.Append(prepared.value);
      if !prepared.value.onPath {
        return None;
      }
      mount := Some(Mount(prepared.value.location, volume.target, volume.readOnly));
    }

    /** `Create`: on failure without a node the leases are rolled back; a node
        returned together with an error keeps its leases. */
    method Create(nodeId: string, volumes: seq<Volume>, reply: Reply)
      returns (node: Option<nat>, resources: PreparedResources?, failed: bool)
      requires storage.Accounted()
      modifies storage
      ensures storage.Accounted()
      ensures resources != null ==> resources.Valid() && fresh(resources) && fresh(resources.slots)
      ensures storage.live == old(storage.live) + Owned(resources) && Owned(resources) !! old(storage.live)
      ensures node.Some? || !failed ==> resources != null && |resources.leases| == |volumes|
      ensures storage.faults >= old(storage.faults) && storage.offPath >= old(storage.offPath)
      ensures node == if storage.faults == old(storage.faults) && storage.offPath == old(storage.offPath)
                      then NodeIn(reply) else None
      ensures !failed <==> node.Some? && reply.Created?
      ensures node.None? && storage.faults == old(storage.faults) ==> resources == null
    {
      var mounts;
      mounts, resources := Prepare(nodeId, volumes);
      if mounts.None? {
        return None, resources, true;
      }
      node, failed := NodeIn(reply), !reply.Created?;
      if failed && node.None? {
        resources := Rollback(resources);
      }
    }
  }

  /** What the provider answers to the create call. */
  datatype Reply = Created(node: nat) | CreatedWithError(node: nat) | Refused

  function NodeIn(reply: Reply): Option<nat> {
    match reply
    case Created(node) => Some(node)
    case CreatedWithError(node) => Some(node)
    case Refused => None
  }

  /** One lease on a path and one mount per volume, in order. */
  ghost predicate Mounted(nodeId: string, volumes: seq<Volume>, leases: seq<Lease>, mounts: seq<Mount>) {
    && |mounts| == |volumes| == |leases|
    && forall i :: 0 <= i < |volumes| ==>
         && leases[i].onPath && leases[i].request == Request(volumes[i].source, nodeId, volumes[i].readOnly)
         && mounts[i] == Mount(leases[i].location, volumes[i].target, volumes[i].readOnly)
  }
}
