/** Sorting of port identifiers (`sort.Strings`). */
module Ordering {

  /** `a` is at most `b` in Go's string order. */
  predicate AtMost(a: string, b: string) {
    a == [] || (b != [] && (a[0] < b[0] || (a[0] == b[0] && AtMost(a[1..], b[1..]))))
  }

  lemma AtMostIsTotal(a: string, b: string)
    ensures AtMost(a, b) || AtMost(b, a)
  {
  }

  lemma AtMostIsTransitive(a: string, b: string, c: string)
    requires AtMost(a, b) && AtMost(b, c)
    ensures AtMost(a, c)
  {
  }

  /** The first difference decides, in favour of the smaller character. */
  ghost predicate DiffersFirstAt(a: string, b: string, k: nat) {
    k < |a| && k < |b| && a[..k] == b[..k] && a[k] < b[k]
  }

  /** The order is the lexicographic one. */
  lemma {:induction false} AtMostIsLexicographic(a: string, b: string)
    ensures AtMost(a, b) <==> a <= b || exists k: nat :: DiffersFirstAt(a, b, k)
    decreases |a|
  {
    if a != [] && b != [] {
      AtMostIsLexicographic(a[1..], b[1..]);
      if a[0] == b[0] {
        assert a <= b <==> a[1..] <= b[1..] by {
          assert a == [a[0]] + a[1..] && b == [b[0]] + b[1..];
        }
        forall k: nat ensures DiffersFirstAt(a[1..], b[1..], k) <==> DiffersFirstAt(a, b, k + 1) {
          FirstDifferenceShifts(a, b, k);
        }
        if exists k: nat :: DiffersFirstAt(a, b, k) {
          var k: nat :| DiffersFirstAt(a, b, k);
          assert k > 0 && DiffersFirstAt(a[1..], b[1..], k - 1);
        }
        if exists k: nat :: DiffersFirstAt(a[1..], b[1..], k) {
          var k: nat :| DiffersFirstAt(a[1..], b[1..], k);
          var next := k + 1;
          assert DiffersFirstAt(a, b, next);
        }
      } else if a[0] < b[0] {
        assert DiffersFirstAt(a, b, 0);
      } else {
        forall k: nat ensures !DiffersFirstAt(a, b, k) {
          if 0 < k < |a| && k < |b| {
            assert a[..k][0] != b[..k][0];
          }
        }
      }
    }
  }

  lemma FirstDifferenceShifts(a: string, b: string, k: nat)
    requires a != [] && b != [] && a[0] == b[0]
    ensures DiffersFirstAt(a[1..], b[1..], k) <==> DiffersFirstAt(a, b, k + 1)
  {
    if k + 1 < |a| && k + 1 < |b| {
      assert a[..k + 1] == [a[0]] + a[1..][..k] && b[..k + 1] == [b[0]] + b[1..][..k];
      assert a[..k + 1][1..] == a[1..][..k] && b[..k + 1][1..] == b[1..][..k];
    }
  }

  ghost predicate Ascending(ids: seq<string>) {
    forall i, j :: 0 <= i < j < |ids| ==> AtMost(ids[i], ids[j])
  }

  function Insert(id: string, ids: seq<string>): seq<string> {
    if ids == [] then [id]
    else if AtMost(id, ids[0]) then [id] + ids
    else [ids[0]] + Insert(id, ids[1..])
  }

  function Sort(ids: seq<string>): seq<string> {
    if ids == [] then [] else Insert(ids[0], Sort(ids[1..]))
  }

  lemma {:induction false} InsertKeepsOrder(id: string, ids: seq<string>)
    requires Ascending(ids)
    ensures Ascending(Insert(id, ids))
    ensures multiset(Insert(id, ids)) == multiset(ids) + multiset{id}
    decreases |ids|
  {
    if ids != [] {
      assert ids == [ids[0]] + ids[1..];
      if AtMost(id, ids[0]) {
        forall j | 0 <= j < |ids| ensures AtMost(id, ids[j]) {
          if j > 0 {
            AtMostIsTransitive(id, ids[0], ids[j]);
          }
        }
        Prepend(id, ids);
      } else {
        InsertKeepsOrder(id, ids[1..]);
        var rest := Insert(id, ids[1..]);
        forall j | 0 <= j < |rest| ensures AtMost(ids[0], rest[j]) {
          assert rest[j] in multiset(rest);
          HeadIsLeast(id, ids, rest[j]);
        }
        Prepend(ids[0], rest);
      }
    }
  }

  lemma Prepend(x: string, ids: seq<string>)
    requires Ascending(ids) && forall j :: 0 <= j < |ids| ==> AtMost(x, ids[j])
    ensures Ascending([x] + ids) && multiset([x] + ids) == multiset(ids) + multiset{x}
  {
  }

  lemma HeadIsLeast(id: string, ids: seq<string>, x: string)
    requires Ascending(ids) && ids != [] && !AtMost(id, ids[0]) && x in multiset(ids[1..]) + multiset{id}
    ensures AtMost(ids[0], x)
  {
    AtMostIsTotal(id, ids[0]);
    if x != id {
      var i :| 0 <= i < |ids[1..]| && ids[1..][i] == x;
      assert x == ids[i + 1];
    }
  }

  lemma {:induction false} SortSorts(ids: seq<string>)
    ensures Ascending(Sort(ids))
    ensures multiset(Sort(ids)) == multiset(ids)
    decreases |ids|
  {
    if ids != [] {
      SortSorts(ids[1..]);
      InsertKeepsOrder(ids[0], Sort(ids[1..]));
      assert ids == [ids[0]] + ids[1..];
    }
  }

  ghost predicate Distinct(ids: seq<string>) {
    forall i, j :: 0 <= i < j < |ids| ==> ids[i] != ids[j]
  }

  lemma {:induction false} DistinctByCount(ids: seq<string>)
    ensures Distinct(ids) <==> forall id :: multiset(ids)[id] <= 1
    decreases |ids|
  {
    if ids != [] {
      var front, last := ids[..|ids| - 1], ids[|ids| - 1];
      DistinctByCount(front);
      assert ids == front + [last];
      assert multiset(ids) == multiset(front) + multiset{last};
      if Distinct(ids) {
        assert last !in front;
        assert multiset(front)[last] == 0;
      } else if Distinct(front) {
        var i, j :| 0 <= i < j < |ids| && ids[i] == ids[j];
        assert j == |front| && front[i] == last;
        assert last in multiset(front) && multiset(ids)[last] > 1;
      } else {
        var id :| multiset(front)[id] > 1;
        assert multiset(ids)[id] > 1;
      }
    }
  }

  /** Sorting keeps distinctness and membership. */
  lemma SortKeepsMembers(ids: seq<string>)
    ensures Distinct(ids) ==> Distinct(Sort(ids))
    ensures forall id :: id in Sort(ids) <==> id in ids
  {
    SortSorts(ids);
    DistinctByCount(ids);
    DistinctByCount(Sort(ids));
    forall id ensures id in Sort(ids) <==> id in ids {
      assert id in ids <==> id in multiset(ids);
      assert id in Sort(ids) <==> id in multiset(Sort(ids));
    }
  }
}

/** What the learning switch (`bridge/engine.go`) computes: egress lookup, and
    the forwarding database as a function of the switch's history. */
module SwitchSpec {
  import opened Ordering

  newtype byte = x: int | 0 <= x < 256

  /** An Ethernet address: six bytes of a frame. */
  type Mac = seq<byte>

  const HEADER_LENGTH := 14
  const BROADCAST: Mac := [0xff, 0xff, 0xff, 0xff, 0xff, 0xff]

  datatype Port = Port(id: string, mtu: int)

  /** The nil port that a missing map entry would yield. */
  const NIL_PORT := Port("", 0)

  function Source(frame: seq<byte>): Mac
    requires |frame| >= HEADER_LENGTH
  {
    frame[6..12]
  }

  function Destination(frame: seq<byte>): Mac
    requires |frame| >= HEADER_LENGTH
  {
    frame[0..6]
  }

  predicate IsMulticast(mac: Mac) {
    |mac| > 0 && mac[0] as int % 2 == 1
  }

  // ------------------------------------------------------------ egress

  function PortsExcept(ports: map<string, Port>, ids: seq<string>, src: string): seq<Port> {
    if ids == [] then []
    else
      var front, last := PortsExcept(ports, ids[..|ids| - 1], src), ids[|ids| - 1];
      if last == src then front
      else front + [if last in ports then ports[last] else NIL_PORT]
  }

  /** `allPortsExceptLocked`. */
  function Flood(ports: map<string, Port>, order: seq<string>, src: string): seq<Port> {
    PortsExcept(ports, Sort(order), src)
  }

  predicate FloodsAlways(dst: Mac) {
    dst == BROADCAST || IsMulticast(dst)
  }

  predicate KnownElsewhere(ports: map<string, Port>, fdb: map<Mac, string>, src: string, dst: Mac) {
    dst in fdb && fdb[dst] in ports && fdb[dst] != src
  }

  /** `egressPorts`: group addresses flood; a known unicast goes to its port
      unless that is the ingress port or is gone; the rest floods if allowed. */
  function Targets(ports: map<string, Port>, order: seq<string>, fdb: map<Mac, string>,
                   disableFlood: bool, src: string, dst: Mac): seq<Port>
  {
    if FloodsAlways(dst) then Flood(ports, order, src)
    else if KnownElsewhere(ports, fdb, src, dst) then [ports[fdb[dst]]]
    else if disableFlood then []
    else Flood(ports, order, src)
  }

  ghost function Ids(ports: seq<Port>): (ids: seq<string>)
    ensures |ids| == |ports|
  {
    seq(|ports|, i requires 0 <= i < |ports| => ports[i].id)
  }

  /** The order list and the port map describe the same ports. */
  ghost predicate OrderMatches(ports: map<string, Port>, order: seq<string>) {
    && Distinct(order)
    && (forall id :: id in order <==> id in ports)
    && (forall id :: id in ports ==> ports[id].id == id)
  }

  /** Which ports are left, each under its own identifier. */
  lemma {:induction false} PortsExceptMembers(ports: map<string, Port>, ids: seq<string>, src: string)
    requires forall id :: id in ids ==> id in ports && ports[id].id == id
    ensures forall id :: id in Ids(PortsExcept(ports, ids, src)) <==> id in ids && id != src
    ensures forall p :: p in PortsExcept(ports, ids, src) ==> p.id in ports && ports[p.id] == p
    decreases |ids|
  {
    if ids != [] {
      var front, last := ids[..|ids| - 1], ids[|ids| - 1];
      PortsExceptMembers(ports, front, src);
      assert ids == front + [last];
      IdsOfOne(PortsExcept(ports, front, src), ports[last]);
    }
  }

  lemma IdsOfOne(ports: seq<Port>, p: Port)
    ensures Ids(ports + [p]) == Ids(ports) + [p.id]
  {
  }

  /** The rest of an ascending list is ascending. */
  lemma {:induction false} PortsExceptIds(ports: map<string, Port>, ids: seq<string>, src: string)
    requires forall id :: id in ids ==> id in ports && ports[id].id == id
    requires Distinct(ids) && Ascending(ids)
    ensures Distinct(Ids(PortsExcept(ports, ids, src))) && Ascending(Ids(PortsExcept(ports, ids, src)))
    decreases |ids|
  {
    if ids != [] {
      var front, last := ids[..|ids| - 1], ids[|ids| - 1];
      PortsExceptIds(ports, front, src);
      PortsExceptMembers(ports, front, src);
      IdsOfOne(PortsExcept(ports, front, src), ports[last]);
      var before := Ids(PortsExcept(ports, front, src));
      forall i | 0 <= i < |before| ensures before[i] != last && AtMost(before[i], last) {
        assert before[i] in front;
      }
    }
  }

  /** What every caller of the lookup may rely on: no duplicates, only attached
      ports, never the ingress port, and ascending identifiers. */
  ghost predicate GoodTargets(ports: map<string, Port>, src: string, targets: seq<Port>) {
    && Distinct(Ids(targets))
    && src !in Ids(targets)
    && Ascending(Ids(targets))
    && (forall p :: p in targets ==> p.id in ports && ports[p.id] == p)
  }

  /** Flooding reaches exactly the other ports, in ascending order. */
  lemma FloodReachesTheOthers(ports: map<string, Port>, order: seq<string>, src: string)
    requires OrderMatches(ports, order)
    ensures GoodTargets(ports, src, Flood(ports, order, src))
    ensures forall id :: id in Ids(Flood(ports, order, src)) <==> id in ports && id != src
  {
    SortSorts(order);
    SortKeepsMembers(order);
    PortsExceptIds(ports, Sort(order), src);
    PortsExceptMembers(ports, Sort(order), src);
  }

  /** The group bit of the first byte is set; broadcast has it too. */
  ghost predicate GroupAddress(dst: Mac) {
    dst != [] && dst[0] as int % 2 == 1
  }

  /** The ports a frame for `dst` should reach. */
  ghost predicate Reached(ports: map<string, Port>, fdb: map<Mac, string>, disableFlood: bool,
                          src: string, dst: Mac, id: string)
  {
    && id in ports && id != src
    && (!GroupAddress(dst) ==>
          if dst in fdb && fdb[dst] in ports && fdb[dst] != src then id == fdb[dst] else !disableFlood)
  }

  lemma GroupsAreFlooded(dst: Mac)
    ensures FloodsAlways(dst) <==> GroupAddress(dst)
  {
    assert BROADCAST[0] as int % 2 == 1;
  }

  /** The lookup is sound for any forwarding database, dangling entries or not. */
  lemma LookupIsSound(ports: map<string, Port>, order: seq<string>, fdb: map<Mac, string>,
                      disableFlood: bool, src: string, dst: Mac)
    requires OrderMatches(ports, order)
    ensures GoodTargets(ports, src, Targets(ports, order, fdb, disableFlood, src, dst))
    ensures forall id :: id in Ids(Targets(ports, order, fdb, disableFlood, src, dst)) <==>
                         Reached(ports, fdb, disableFlood, src, dst, id)
  {
    FloodReachesTheOthers(ports, order, src);
    GroupsAreFlooded(dst);
    if !FloodsAlways(dst) && KnownElsewhere(ports, fdb, src, dst) {
      assert Ids([ports[fdb[dst]]]) == [fdb[dst]];
    }
  }

  // ------------------------------------------------------------ the lookup in plain terms

  /** A frame starts with its destination, followed by its source. */
  lemma HeaderReads(dst: Mac, src: Mac, rest: seq<byte>)
    requires |dst| == |src| == 6 && |dst + src + rest| >= HEADER_LENGTH
    ensures Destination(dst + src + rest) == dst && Source(dst + src + rest) == src
  {
  }

  /** A unicast address known on another attached port goes there only. */
  lemma KnownUnicastGoesThere(ports: map<string, Port>, order: seq<string>, fdb: map<Mac, string>,
                              disableFlood: bool, src: string, dst: Mac)
    requires |dst| == 6 && dst[0] as int % 2 == 0
    requires dst in fdb && fdb[dst] in ports && fdb[dst] != src
    ensures Targets(ports, order, fdb, disableFlood, src, dst) == [ports[fdb[dst]]]
  {
    GroupsAreFlooded(dst);
  }

  /** A group address, broadcast included, goes to all other ports, whatever the
      flood option and the database say. */
  lemma GroupGoesEverywhere(ports: map<string, Port>, order: seq<string>, fdb: map<Mac, string>,
                            disableFlood: bool, src: string, dst: Mac, id: string)
    requires OrderMatches(ports, order) && |dst| == 6 && dst[0] as int % 2 == 1
    ensures id in Ids(Targets(ports, order, fdb, disableFlood, src, dst)) <==> id in ports && id != src
  {
    LookupIsSound(ports, order, fdb, disableFlood, src, dst);
  }

  /** Any other unicast address is flooded to all other ports, or to none when that
      is switched off. */
  lemma UnknownUnicastFloods(ports: map<string, Port>, order: seq<string>, fdb: map<Mac, string>,
                             disableFlood: bool, src: string, dst: Mac, id: string)
    requires OrderMatches(ports, order) && |dst| == 6 && dst[0] as int % 2 == 0
    requires !(dst in fdb && fdb[dst] in ports && fdb[dst] != src)
    ensures id in Ids(Targets(ports, order, fdb, disableFlood, src, dst)) <==> !disableFlood && id in ports && id != src
  {
    LookupIsSound(ports, order, fdb, disableFlood, src, dst);
  }

  // ------------------------------------------------------------ history

  /** What happens to a switch, seen from its forwarding database. */
  datatype Happening =
    | Attached(id: string)
    | Removed(id: string)
    | Received(port: string, frame: seq<byte>)

  /** A full-length frame whose source is `mac` and is not broadcast. */
  predicate Teaches(h: Happening, mac: Mac) {
    h.Received? && |h.frame| >= 14 && h.frame[6..12] == mac && mac != BROADCAST
  }

  function Forget(fdb: map<Mac, string>, id: string): map<Mac, string> {
    map mac | mac in fdb && fdb[mac] != id :: fdb[mac]
  }

  /** How one happening changes the forwarding database. */
  function Update(fdb: map<Mac, string>, h: Happening): map<Mac, string> {
    if h.Removed? then Forget(fdb, h.id)
    else if h.Received? && |h.frame| >= HEADER_LENGTH && Source(h.frame) != BROADCAST then
      fdb[Source(h.frame) := h.port]
    else fdb
  }

  /** The forwarding database as a fold over the history. */
  ghost function Replay(history: seq<Happening>): map<Mac, string> {
    if history == [] then map[]
    else Update(Replay(history[..|history| - 1]), history[|history| - 1])
  }

  lemma ReplayNext(history: seq<Happening>, h: Happening)
    ensures Replay(history + [h]) == Update(Replay(history), h)
  {
    assert (history + [h])[..|history|] == history;
  }

  /** The latest frame teaching `mac` entered on `p`, and `p` has not been
      removed since. */
  ghost predicate LatestEntered(history: seq<Happening>, mac: Mac, p: string) {
    exists i :: 0 <= i < |history| && LatestAt(history, mac, p, i)
  }

  ghost predicate LatestAt(history: seq<Happening>, mac: Mac, p: string, i: int)
    requires 0 <= i < |history|
  {
    && Teaches(history[i], mac) && history[i].port == p
    && (forall j :: i < j < |history| ==> !Teaches(history[j], mac) && history[j] != Removed(p))
  }

  /** One more happening keeps the latest entry exactly when it neither teaches
      the address again nor removes the port. */
  lemma LatestEnteredNext(history: seq<Happening>, h: Happening, mac: Mac, p: string)
    ensures LatestEntered(history + [h], mac, p) <==>
            || (Teaches(h, mac) && h.port == p)
            || (LatestEntered(history, mac, p) && !Teaches(h, mac) && h != Removed(p))
  {
    var longer := history + [h];
    var n := |history|;
    assert longer[n] == h;
    if Teaches(h, mac) && h.port == p {
      assert LatestAt(longer, mac, p, n);
    }
    if LatestEntered(history, mac, p) && !Teaches(h, mac) && h != Removed(p) {
      var i :| 0 <= i < n && LatestAt(history, mac, p, i);
      assert LatestAt(longer, mac, p, i);
    }
    if LatestEntered(longer, mac, p) {
      var i :| 0 <= i < |longer| && LatestAt(longer, mac, p, i);
      if i < n {
        assert LatestAt(history, mac, p, i) by {
          assert forall j :: i < j < n ==> longer[j] == history[j];
        }
      }
    }
  }

  /** The fold holds exactly the latest entries. */
  lemma {:induction false} ReplayIsLatest(history: seq<Happening>, mac: Mac, p: string)
    ensures (mac in Replay(history) && Replay(history)[mac] == p) <==> LatestEntered(history, mac, p)
    decreases |history|
  {
    if history != [] {
      var front, last := history[..|history| - 1], history[|history| - 1];
      assert history == front + [last];
      ReplayIsLatest(front, mac, p);
      LatestEnteredNext(front, last, mac, p);
    }
  }
}
