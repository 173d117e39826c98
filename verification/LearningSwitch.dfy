/** The learning switch (`bridge/engine.go`) as an object: its port list, its
    forwarding database, and the processing of one frame with handlers, capture
    sinks and targets that may write into the buffers they are given. */
module LearningSwitch {
  import opened Options
  import opened Ordering
  import opened SwitchSpec

  datatype Error = AlreadyAttached | NotFound | CloseFailed

  /** Events as emitted; frames are the bytes at the time of emission. */
  datatype Event =
    | PortAttached(port: string)
    | PortRemoved(port: string)
    | PortClosed(port: string)
    | FdbLearned(port: string, mac: Mac)
    | FrameIngress(port: string)
    | FrameEgress(port: string, target: string)
    | FrameDropped(port: string, onTarget: Option<string>)

  /** One call of a target's `WriteFrame`: what it was given, and its result. */
  datatype Write = Write(target: string, bytes: seq<byte>, ok: bool)

  /** What one event handler was given and what it left in that buffer. */
  datatype View = View(before: seq<byte>, after: seq<byte>)

  /** Every forwarding entry names an attached port. */
  ghost predicate PointsInto(fdb: map<Mac, string>, ports: map<string, Port>) {
    forall mac :: mac in fdb ==> fdb[mac] in ports
  }

  // ------------------------------------------------------------ in-place filter

  ghost function Without(ids: seq<string>, target: string): seq<string> {
    if ids == [] then []
    else
      var front, last := Without(ids[..|ids| - 1], target), ids[|ids| - 1];
      if last == target then front else front + [last]
  }

  lemma {:induction false} WithoutKeepsTheOthers(ids: seq<string>, target: string)
    ensures forall id :: id in Without(ids, target) <==> id in ids && id != target
    ensures Distinct(ids) ==> Distinct(Without(ids, target))
    ensures |Without(ids, target)| <= |ids|
    decreases |ids|
  {
    if ids != [] {
      var front, last := ids[..|ids| - 1], ids[|ids| - 1];
      WithoutKeepsTheOthers(front, target);
      assert ids == front + [last];
      if Distinct(ids) {
        assert Distinct(front) && last !in front;
      }
    }
  }

  /** `removePortOrder`: writes the kept identifiers over the front of the very
      slice it reads. */
  method RemovePortOrder(order: array<string>, count: nat, target: string) returns (kept: nat)
    requires count <= order.Length
    modifies order
    ensures kept <= count && order[..kept] == Without(old(order[..count]), target)
  {
    ghost var ids := order[..count];
    kept := 0;
    for i := 0 to count
      invariant kept <= i
      invariant forall j :: i <= j < count ==> order[j] == ids[j]
      invariant order[..kept] == Without(ids[..i], target)
    {
      assert ids[..i + 1][..i] == ids[..i];
      if order[i] != target {
        ghost var front := order[..kept];
        order[kept] := order[i];
        kept := kept + 1;
        assert order[..kept] == front + [ids[i]];
      }
    }
    assert ids[..count] == ids;
  }

  lemma AttachKeepsOrder(ports: map<string, Port>, order: seq<string>, fdb: map<Mac, string>, p: Port)
    requires OrderMatches(ports, order) && PointsInto(fdb, ports) && p.id !in ports
    ensures OrderMatches(ports[p.id := p], order + [p.id]) && PointsInto(fdb, ports[p.id := p])
  {
  }

  lemma RemoveKeepsOrder(ports: map<string, Port>, order: seq<string>, fdb: map<Mac, string>, id: string)
    requires OrderMatches(ports, order) && PointsInto(fdb, ports)
    ensures OrderMatches(ports - {id}, Without(order, id)) && PointsInto(Forget(fdb, id), ports - {id})
    ensures |Without(order, id)| <= |order|
  {
    WithoutKeepsTheOthers(order, id);
  }

  /** `deleteFDBEntriesForPort`: deletes while iterating, in any order. */
  method DeleteFdbEntries(fdb: map<Mac, string>, id: string) returns (r: map<Mac, string>)
    ensures r == Forget(fdb, id)
  {
    r := fdb;
    var unseen := fdb.Keys;
    while unseen != {}
      invariant unseen <= fdb.Keys
      invariant forall mac :: mac in r <==> mac in fdb && (mac in unseen || fdb[mac] != id)
      invariant forall mac :: mac in r ==> r[mac] == fdb[mac]
      decreases unseen
    {
      var mac :| mac in unseen;
      if fdb[mac] == id {
        r := r - {mac};
      }
      unseen := unseen - {mac};
    }
  }

  method Clone(frame: array<byte>) returns (copy: array<byte>)
    ensures fresh(copy) && copy[..] == frame[..]
  {
    copy := new byte[frame.Length](i requires 0 <= i < frame.Length reads frame => frame[i]);
  }

  /** Foreign code that received a buffer may change its bytes in any way. */
  method Scribble(buffer: array<byte>)
    modifies buffer
  {
    for i := 0 to buffer.Length {
      var b: byte := *;
      buffer[i] := b;
    }
  }

  /** Every handler sees what the previous one left: the chain of views. */
  ghost predicate Chained(views: seq<View>, frame: seq<byte>) {
    && (|views| > 0 ==> views[0].before == frame)
    && (forall i :: 1 <= i < |views| ==> views[i].before == views[i - 1].after)
  }

  /** Every handler is given the emitted frame exactly when every handler but the
      last leaves its buffer as it got it. */
  lemma {:induction false} HandlersSeeTheFrame(views: seq<View>, frame: seq<byte>)
    requires Chained(views, frame)
    ensures (forall i :: 0 <= i < |views| ==> views[i].before == frame) <==>
            (forall i :: 0 <= i < |views| - 1 ==> views[i].after == frame)
  {
    if forall i :: 0 <= i < |views| ==> views[i].before == frame {
      forall i | 0 <= i < |views| - 1 ensures views[i].after == frame {
        assert views[i + 1].before == views[i].after;
      }
    }
    if forall i :: 0 <= i < |views| - 1 ==> views[i].after == frame {
      forall i | 0 <= i < |views| ensures views[i].before == frame {
        if i > 0 {
          assert views[i].before == views[i - 1].after;
        }
      }
    }
  }

  /** Two handlers, the first of which changes a byte of a one-byte frame: whatever
      the second leaves, it was given that byte and not the frame. */
  lemma SecondHandlerSeesTheChange(left: seq<byte>)
    ensures Chained([View([0], [1]), View([1], left)], [0])
    ensures forall given: seq<byte> :: Chained([View([0], [1]), View(given, left)], [0]) ==> given == [1] && given != [0]
  {
    forall given: seq<byte> | Chained([View([0], [1]), View(given, left)], [0]) ensures given == [1] {
      assert [View([0], [1]), View(given, left)][1].before == [1];
    }
  }

  ghost function Copies(bytes: seq<byte>, n: nat): seq<seq<byte>> {
    seq(n, _ => bytes)
  }

  /** The event a target's write result calls for. */
  ghost function DeliveryEvent(src: string, w: Write): Event {
    if w.ok then FrameEgress(src, w.target) else FrameDropped(src, Some(w.target))
  }

  ghost function DeliveryEvents(src: string, writes: seq<Write>): (events: seq<Event>)
    ensures |events| == |writes|
  {
    seq(|writes|, i requires 0 <= i < |writes| => DeliveryEvent(src, writes[i]))
  }

  /** One write per target, in order, each of the ingress bytes. */
  ghost predicate WritesAll(writes: seq<Write>, targets: seq<Port>, bytes: seq<byte>) {
    && |writes| == |targets|
    && (forall i :: 0 <= i < |writes| ==> writes[i].target == targets[i].id && writes[i].bytes == bytes)
  }

  class Switch {
    var ports: map<string, Port>
    var fdb: map<Mac, string>
    var order: array<string>
    var count: nat
    const disableFlood: bool
    const handlers: nat
    const sinks: nat

    ghost var history: seq<Happening>
    ghost var events: seq<Event>
    ghost var writes: seq<Write>
    ghost var views: seq<seq<View>>
    ghost var captured: seq<seq<byte>>

    ghost predicate Valid()
      reads `ports, `fdb, `order, `count, `history, order
    {
      && count <= order.Length
      && OrderMatches(ports, order[..count])
      && PointsInto(fdb, ports)
      && fdb == Replay(history)
    }

    constructor (disableFlood: bool, handlers: nat, sinks: nat)
      ensures Valid() && fresh(order)
      ensures ports == map[] && fdb == map[] && history == [] && events == [] && writes == []
    {
      this.disableFlood, this.handlers, this.sinks := disableFlood, handlers, sinks;
      ports, fdb, count := map[], map[], 0;
      order := new string[0];
      history, events, writes, views, captured := [], [], [], [], [];
    }

    /** `append(s.order, id)`, in place when the slice has room. */
    method AppendOrder(id: string)
      requires count <= order.Length
      modifies this`order, this`count, order
      ensures count <= order.Length && (order == old(order) || fresh(order))
      ensures order[..count] == old(order[..count]) + [id]
    {
      if count == order.Length {
        var grown := new string[2 * count + 1](i reads this, order => if 0 <= i < order.Length then order[i] else "");
        order := grown;
      }
      ghost var front := order[..count];
      assert front == old(order[..count]);
      order[count] := id;
      count := count + 1;
      assert order[..count] == front + [id];
    }

    method AttachPort(p: Port) returns (err: Option<Error>)
      requires Valid()
      modifies this, order
      ensures Valid() && (order == old(order) || fresh(order))
      ensures err == if p.id in old(ports) then Some(AlreadyAttached) else None
      ensures err.Some? ==> ports == old(ports) && order[..count] == old(order[..count]) && history == old(history)
      ensures err.None? ==> ports == old(ports)[p.id := p] && order[..count] == old(order[..count]) + [p.id]
      ensures err.None? ==> history == old(history) + [Attached(p.id)]
      ensures fdb == old(fdb) && writes == old(writes)
    {
      if p.id in ports {
        return Some(AlreadyAttached);
      }
      Enlist(p);
      Emit(PortAttached(p.id));
      err := None;
    }

    /** Enters a new port into the map and the order. */
    method Enlist(p: Port)
      requires Valid() && p.id !in ports
      modifies this`ports, this`order, this`count, this`history, order
      ensures Valid() && (order == old(order) || fresh(order))
      ensures ports == old(ports)[p.id := p] && order[..count] == old(order[..count]) + [p.id]
      ensures history == old(history) + [Attached(p.id)]
    {
      ghost var ids := order[..count];
      AppendOrder(p.id);
      assert order[..count] == ids + [p.id];
      AttachKeepsOrder(ports, ids, fdb, p);
      ReplayNext(history, Attached(p.id));
      ports, history := ports[p.id := p], history + [Attached(p.id)];
    }

    method RemovePort(id: string, closeFails: bool) returns (err: Option<Error>)
      requires Valid()
      modifies this, order
      ensures Valid() && order == old(order)
      ensures err == if id !in old(ports) then Some(NotFound) else if closeFails then Some(CloseFailed) else None
      ensures err == Some(NotFound) ==>
                ports == old(ports) && fdb == old(fdb) && order[..count] == old(order[..count]) && history == old(history)
      ensures err != Some(NotFound) ==>
                && ports == old(ports) - {id} && fdb == Forget(old(fdb), id)
                && order[..count] == Without(old(order[..count]), id)
                && history == old(history) + [Removed(id)]
      ensures writes == old(writes)
    {
      if id !in ports {
        return Some(NotFound);
      }
      Delist(id);
      Emit(PortRemoved(id));
      if closeFails {
        return Some(CloseFailed);
      }
      Emit(PortClosed(id));
      err := None;
    }

    /** Forgets a port in the map, the database and the order. */
    method Delist(id: string)
      requires Valid()
      modifies this`ports, this`fdb, this`count, this`history, order
      ensures Valid() && ports == old(ports) - {id} && fdb == Forget(old(fdb), id)
      ensures order[..count] == Without(old(order[..count]), id) && history == old(history) + [Removed(id)]
    {
      ghost var ids := order[..count];
      count := RemovePortOrder(order, count, id);
      assert order[..count] == Without(ids, id);
      RemoveKeepsOrder(ports, ids, fdb, id);
      ReplayNext(history, Removed(id));
      fdb := DeleteFdbEntries(fdb, id);
      ports, history := ports - {id}, history + [Removed(id)];
    }

    /** `emit` for an event without a frame. */
    method Emit(event: Event)
      modifies this`events
      ensures events == old(events) + [event]
    {
      events := events + [event];
    }

    /** `emit` for an event with a frame. `cloneEvent` stores each clone back in
        the event, so a handler is given a copy of the previous handler's
        buffer; the emitted frame itself is never handed out. */
    method EmitFrame(event: Event, frame: array<byte>) returns (ghost seen: seq<View>)
      modifies this`events, this`views
      ensures events == old(events) + [event]
      ensures views == old(views) + [seen] && |seen| == handlers && Chained(seen, frame[..])
    {
      var current := frame;
      seen := [];
      for i := 0 to handlers
        invariant |seen| == i && Chained(seen, frame[..])
        invariant current[..] == if i == 0 then frame[..] else seen[i - 1].after
        invariant i == 0 || fresh(current)
        invariant events == old(events) && views == old(views)
      {
        var copy := Clone(current);
        ghost var before := copy[..];
        Scribble(copy);
        seen := seen + [View(before, copy[..])];
        current := copy;
      }
      events, views := events + [event], views + [seen];
    }

    /** `capture`: every sink gets its own copy of the frame. */
    method Capture(frame: array<byte>)
      modifies this`captured
      ensures captured == old(captured) + Copies(frame[..], sinks)
    {
      for i := 0 to sinks
        invariant captured == old(captured) + Copies(frame[..], i)
      {
        var copy := Clone(frame);
        captured := captured + [copy[..]];
        Scribble(copy);
      }
    }

    /** `learn`. */
    method Learn(mac: Mac, port: string)
      modifies this`fdb, this`events
      ensures fdb == if mac == [] || mac == BROADCAST then old(fdb) else old(fdb)[mac := port]
      ensures events == if fdb == old(fdb) then old(events) else old(events) + [FdbLearned(port, mac)]
    {
      if mac == [] || mac == BROADCAST {
        return;
      }
      if mac in fdb && fdb[mac] == port {
        assert fdb == fdb[mac := port];
        return;
      }
      fdb := fdb[mac := port];
      assert fdb[mac] == port;
      Emit(FdbLearned(port, mac));
    }

    /** `egressPorts` under the read lock. */
    method EgressPorts(src: string, dst: Mac) returns (targets: seq<Port>)
      requires count <= order.Length
      ensures targets == Targets(ports, order[..count], fdb, disableFlood, src, dst)
    {
      if FloodsAlways(dst) {
        targets := AllPortsExcept(src);
        return;
      }
      if dst in fdb && fdb[dst] in ports && fdb[dst] != src {
        return [ports[fdb[dst]]];
      }
      if disableFlood {
        return [];
      }
      targets := AllPortsExcept(src);
    }

    method AllPortsExcept(src: string) returns (targets: seq<Port>)
      requires count <= order.Length
      ensures targets == Flood(ports, order[..count], src)
    {
      var ids := Sort(order[..count]);
      targets := [];
      for i := 0 to |ids|
        invariant targets == PortsExcept(ports, ids[..i], src)
      {
        assert ids[..i + 1][..i] == ids[..i];
        if ids[i] == src {
          continue;
        }
        targets := targets + [if ids[i] in ports then ports[ids[i]] else NIL_PORT];
      }
      assert ids[..|ids|] == ids;
    }

    /** The forwarding loop: a failing target drops the frame for itself only. */
    method Forward(src: string, frame: array<byte>, targets: seq<Port>) returns (ghost delivered: seq<Write>)
      modifies this`events, this`views, this`captured, this`writes
      ensures writes == old(writes) + delivered && WritesAll(delivered, targets, frame[..])
      ensures events == old(events) + DeliveryEvents(src, delivered)
    {
      delivered := [];
      for i := 0 to |targets|
        invariant writes == old(writes) + delivered
        invariant WritesAll(delivered, targets[..i], frame[..])
        invariant events == old(events) + DeliveryEvents(src, delivered)
      {
        ghost var w := Deliver(src, frame, targets[i]);
        assert DeliveryEvents(src, delivered + [w]) == DeliveryEvents(src, delivered) + [DeliveryEvent(src, w)];
        delivered := delivered + [w];
      }
      assert targets[..|targets|] == targets;
    }

    /** One pass of the forwarding loop. */
    method Deliver(src: string, frame: array<byte>, target: Port) returns (ghost w: Write)
      modifies this`events, this`views, this`captured, this`writes
      ensures w.target == target.id && w.bytes == frame[..]
      ensures writes == old(writes) + [w] && events == old(events) + [DeliveryEvent(src, w)]
    {
      var copy := Clone(frame);
      ghost var bytes := copy[..];
      Scribble(copy);
      var ok: bool := *;
      w := Write(target.id, bytes, ok);
      writes := writes + [w];
      ghost var seen;
      if !ok {
        seen := EmitFrame(FrameDropped(src, Some(target.id)), copy);
        return;
      }
      var copied := Clone(copy);
      Capture(copied);
      seen := EmitFrame(FrameEgress(src, target.id), copied);
    }

    /** `processFrame`, run without interference. Every target gets one write of
        the ingress bytes, whatever handlers, sinks and targets do to their
        buffers; a short frame only causes one drop event. */
    method ProcessFrame(src: string, frame: array<byte>) returns (ghost delivered: seq<Write>)
      requires Valid() && src in ports
      modifies this
      ensures Valid()
      ensures ports == old(ports) && order == old(order) && count == old(count)
      ensures history == old(history) + [Received(src, frame[..])]
      ensures writes == old(writes) + delivered
      ensures frame.Length < HEADER_LENGTH ==>
                && fdb == old(fdb) && delivered == []
                && events == old(events) + [FrameIngress(src), FrameDropped(src, None)]
      ensures frame.Length >= HEADER_LENGTH ==>
                && WritesAll(delivered, TargetsOf(src, frame), frame[..])
                && events == old(events) + [FrameIngress(src)] + LearnedEvents(old(fdb), src, frame)
                             + DeliveryEvents(src, delivered)
    {
      var copy := Announce(src, frame);
      if frame.Length < HEADER_LENGTH {
        delivered := [];
        DropShort(src, frame, copy);
      } else {
        delivered := SwitchFrame(src, frame);
      }
    }

    /** Captures a copy of the ingress frame and emits its event. */
    method Announce(src: string, frame: array<byte>) returns (copy: array<byte>)
      modifies this`events, this`views, this`captured
      ensures fresh(copy) && events == old(events) + [FrameIngress(src)]
    {
      copy := Clone(frame);
      Capture(copy);
      ghost var seen := EmitFrame(FrameIngress(src), copy);
    }

    /** Where a frame that has been learned from goes. */
    ghost function TargetsOf(src: string, frame: array<byte>): seq<Port>
      requires count <= order.Length && frame.Length >= HEADER_LENGTH
      reads `ports, `order, `count, `fdb, order, frame
    {
      Targets(ports, order[..count], fdb, disableFlood, src, Destination(frame[..]))
    }

    /** The event of a database that differs from `was`. */
    ghost function LearnedEvents(was: map<Mac, string>, src: string, frame: array<byte>): seq<Event>
      requires frame.Length >= HEADER_LENGTH
      reads `fdb, frame
    {
      if fdb == was then [] else [FdbLearned(src, Source(frame[..]))]
    }

    /** A short frame enters the history and is dropped. */
    method DropShort(src: string, frame: array<byte>, copy: array<byte>)
      requires Valid() && src in ports && frame.Length < HEADER_LENGTH
      modifies this`events, this`views, this`history
      ensures Valid() && history == old(history) + [Received(src, frame[..])]
      ensures events == old(events) + [FrameDropped(src, None)]
    {
      ReplayNext(history, Received(src, frame[..]));
      history := history + [Received(src, frame[..])];
      ghost var seen := EmitFrame(FrameDropped(src, None), copy);
    }

    /** A full-length frame enters the history and teaches its source. */
    method LearnFrom(src: string, frame: array<byte>)
      requires Valid() && src in ports && frame.Length >= HEADER_LENGTH
      modifies this`fdb, this`events, this`history
      ensures Valid() && history == old(history) + [Received(src, frame[..])]
      ensures events == old(events) + LearnedEvents(old(fdb), src, frame)
    {
      assert frame[6..12] == Source(frame[..]);
      ReplayNext(history, Received(src, frame[..]));
      history := history + [Received(src, frame[..])];
      Learn(frame[6..12], src);
    }

    /** The part of `processFrame` that handles a full-length frame. */
    method SwitchFrame(src: string, frame: array<byte>) returns (ghost delivered: seq<Write>)
      requires Valid() && src in ports && frame.Length >= HEADER_LENGTH
      modifies this`fdb, this`events, this`views, this`captured, this`writes, this`history
      ensures Valid() && history == old(history) + [Received(src, frame[..])]
      ensures writes == old(writes) + delivered && WritesAll(delivered, TargetsOf(src, frame), frame[..])
      ensures events == old(events) + LearnedEvents(old(fdb), src, frame) + DeliveryEvents(src, delivered)
    {
      var dst := frame[0..6];
      assert dst == Destination(frame[..]);
      LearnFrom(src, frame);
      var targets := EgressPorts(src, dst);
      assert targets == TargetsOf(src, frame);
      delivered := [];
      if |targets| > 0 {
        delivered := Forward(src, frame, targets);
      }
    }
  }

  /** The forwarding database of a valid switch answers exactly where each
      address was last seen. */
  lemma FdbIsLatest(s: Switch, mac: Mac, p: string)
    requires s.Valid()
    ensures (mac in s.fdb && s.fdb[mac] == p) <==> LatestEntered(s.history, mac, p)
  {
    ReplayIsLatest(s.history, mac, p);
  }

  /** Egress plus dropped events of a delivery equal the number of targets. */
  lemma {:induction false} DeliveriesAreCounted(src: string, writes: seq<Write>)
    ensures CountEgress(DeliveryEvents(src, writes)) + CountDropped(DeliveryEvents(src, writes)) == |writes|
    decreases |writes|
  {
    if writes != [] {
      var front, last := writes[..|writes| - 1], writes[|writes| - 1];
      DeliveriesAreCounted(src, front);
      assert DeliveryEvents(src, writes)[..|writes| - 1] == DeliveryEvents(src, front);
    }
  }

  ghost function CountEgress(events: seq<Event>): nat {
    if events == [] then 0
    else CountEgress(events[..|events| - 1]) + if events[|events| - 1].FrameEgress? then 1 else 0
  }

  ghost function CountDropped(events: seq<Event>): nat {
    if events == [] then 0
    else CountDropped(events[..|events| - 1]) + if events[|events| - 1].FrameDropped? then 1 else 0
  }
}
