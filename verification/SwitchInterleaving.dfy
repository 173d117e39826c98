/** The learning switch (`bridge/engine.go`) as interleaved lock regions: reader
    goroutines receive, learn, look up and send in separate steps, while ports
    come and go. */
module SwitchInterleaving {
  import opened Ordering
  import opened SwitchSpec
  import opened LearningSwitch

  /** Where a reader stands in `processFrame`. */
  datatype Phase =
    | Idle
    | Holding(frame: seq<byte>)
    | Learnt(frame: seq<byte>)
    | Sending(frame: seq<byte>, targets: seq<Port>, delivery: nat)

  /** A reader goroutine, started by the `epoch`th effective `Start` of the switch or
      by an attachment after it. */
  datatype Reader = Reader(port: string, epoch: nat, phase: Phase)

  /** A looked-up frame: the reader that holds it, the ports found, and the writes
      made so far. */
  datatype Delivery = Delivery(reader: nat, frame: seq<byte>, found: seq<Port>, written: seq<Write>)

  datatype State = State(
    ports: map<string, Port>, order: seq<string>, fdb: map<Mac, string>,
    started: bool, epoch: nat, readers: seq<Reader>, deliveries: seq<Delivery>)

  datatype Action =
    | Attach(port: Port)
    | Remove(id: string)
    | Start
    | Stop
    | Read(reader: nat, frame: seq<byte>)
    | Learn(reader: nat)
    | Lookup(reader: nat)
    | Send(reader: nat, ok: bool)

  const INITIAL := State(map[], [], map[], false, 0, [], [])

  function ReadersFor(ids: seq<string>, epoch: nat): seq<Reader> {
    seq(|ids|, i requires 0 <= i < |ids| => Reader(ids[i], epoch, Idle))
  }

  function SetPhase(s: State, r: nat, phase: Phase): State
    requires r < |s.readers|
  {
    s.(readers := s.readers[r := s.readers[r].(phase := phase)])
  }

  /** One lock region. An action that is not enabled changes nothing. A reader
      keeps its port identifier after the port is removed. */
  ghost function Step(s: State, a: Action, disableFlood: bool): State {
    match a
    case Attach(p) =>
      if p.id in s.ports then s
      else s.(ports := s.ports[p.id := p], order := s.order + [p.id],
              readers := s.readers + if s.started then [Reader(p.id, s.epoch, Idle)] else [])
    case Remove(gone) =>
      if gone !in s.ports then s
      else s.(ports := s.ports - {gone}, fdb := Forget(s.fdb, gone), order := Without(s.order, gone))
    case Start =>
      if s.started then s
      else s.(started := true, epoch := s.epoch + 1, readers := s.readers + ReadersFor(Sort(s.order), s.epoch + 1))
    case Stop => s.(started := false)
    case Read(r, frame) =>
      if r < |s.readers| && s.readers[r].phase.Idle? && |frame| >= HEADER_LENGTH
      then SetPhase(s, r, Holding(frame)) else s
    case Learn(r) =>
      if r < |s.readers| && s.readers[r].phase.Holding? && |s.readers[r].phase.frame| >= HEADER_LENGTH then
        var frame := s.readers[r].phase.frame;
        SetPhase(s.(fdb := Update(s.fdb, Received(s.readers[r].port, frame))), r, Learnt(frame))
      else s
    case Lookup(r) =>
      if LooksUp(s, r) then
        var frame, found := s.readers[r].phase.frame, Found(s, r, disableFlood);
        SetPhase(s, r, Sending(frame, found, |s.deliveries|))
        .(deliveries := s.deliveries + [Delivery(r, frame, found, [])])
      else s
    case Send(r, ok) =>
      if r < |s.readers| && s.readers[r].phase.Sending? then Sent(s, r, ok) else s
  }

  /** The next write of a reader, or the end of its loop. A target is written to
      whether or not it is still attached. */
  function Sent(s: State, r: nat, ok: bool): State
    requires r < |s.readers| && s.readers[r].phase.Sending?
  {
    var phase := s.readers[r].phase;
    if phase.targets == [] then SetPhase(s, r, Idle)
    else
      var d, w := phase.delivery, Write(phase.targets[0].id, phase.frame, ok);
      var t := SetPhase(s, r, Sending(phase.frame, phase.targets[1..], d));
      if d < |s.deliveries| then
        t.(deliveries := s.deliveries[d := s.deliveries[d].(written := s.deliveries[d].written + [w])])
      else t
  }

  ghost predicate LooksUp(s: State, r: nat) {
    r < |s.readers| && s.readers[r].phase.Learnt? && |s.readers[r].phase.frame| >= HEADER_LENGTH
  }

  /** What reader `r` finds when it looks up its frame now. */
  ghost function Found(s: State, r: nat, disableFlood: bool): seq<Port>
    requires LooksUp(s, r)
  {
    Targets(s.ports, s.order, s.fdb, disableFlood, s.readers[r].port, Destination(s.readers[r].phase.frame))
  }

  /** The state after any sequence of actions: every interleaving. */
  ghost function Exec(actions: seq<Action>, disableFlood: bool): State {
    if actions == [] then INITIAL
    else Step(Exec(actions[..|actions| - 1], disableFlood), actions[|actions| - 1], disableFlood)
  }

  lemma StepKeepsOrder(s: State, a: Action, disableFlood: bool)
    requires OrderMatches(s.ports, s.order)
    ensures var t := Step(s, a, disableFlood); OrderMatches(t.ports, t.order)
  {
    match a
    case Attach(p) =>
      if p.id !in s.ports {
        AttachKeepsOrder(s.ports, s.order, map[], p);
      }
    case Remove(gone) => RemoveKeepsOrder(s.ports, s.order, map[], gone);
    case _ =>
  }

  lemma {:induction false} OrderAlwaysMatches(actions: seq<Action>, disableFlood: bool)
    ensures var s := Exec(actions, disableFlood); OrderMatches(s.ports, s.order)
    decreases |actions|
  {
    if actions != [] {
      OrderAlwaysMatches(actions[..|actions| - 1], disableFlood);
      StepKeepsOrder(Exec(actions[..|actions| - 1], disableFlood), actions[|actions| - 1], disableFlood);
    }
  }

  /** Under every interleaving, whatever the forwarding database holds, a lookup
      finds distinct ports that are attached at that moment, in ascending order,
      never the ingress port, and exactly the ports the frame should reach. */
  lemma EveryLookupIsSound(actions: seq<Action>, r: nat, disableFlood: bool)
    requires LooksUp(Exec(actions, disableFlood), r)
    ensures var s := Exec(actions, disableFlood);
            && GoodTargets(s.ports, s.readers[r].port, Found(s, r, disableFlood))
            && (forall id :: id in Ids(Found(s, r, disableFlood)) <==>
                  Reached(s.ports, s.fdb, disableFlood, s.readers[r].port,
                          Destination(s.readers[r].phase.frame), id))
            && Step(s, Lookup(r), disableFlood).readers[r].phase
               == Sending(s.readers[r].phase.frame, Found(s, r, disableFlood), |s.deliveries|)
  {
    OrderAlwaysMatches(actions, disableFlood);
    var s := Exec(actions, disableFlood);
    LookupIsSound(s.ports, s.order, s.fdb, disableFlood, s.readers[r].port,
                  Destination(s.readers[r].phase.frame));
  }

  // ------------------------------------------------------------ what the database holds

  /** What an effective step means for the forwarding database. */
  ghost function Meaning(s: State, a: Action): seq<Happening> {
    match a
    case Attach(p) => if p.id in s.ports then [] else [Attached(p.id)]
    case Remove(gone) => if gone in s.ports then [Removed(gone)] else []
    case Learn(r) =>
      if r < |s.readers| && s.readers[r].phase.Holding? then [Received(s.readers[r].port, s.readers[r].phase.frame)]
      else []
    case _ => []
  }

  /** The order in which removals and learning took effect. */
  ghost function Effects(actions: seq<Action>, disableFlood: bool): seq<Happening> {
    if actions == [] then []
    else
      var front := actions[..|actions| - 1];
      Effects(front, disableFlood) + Meaning(Exec(front, disableFlood), actions[|actions| - 1])
  }

  /** Under every interleaving, dangling entries included, the database maps an
      address to a port exactly when the latest frame learned from that address
      entered there and the port was not removed since. */
  lemma FdbIsLatestLearned(actions: seq<Action>, disableFlood: bool, mac: Mac, p: string)
    ensures var fdb := Exec(actions, disableFlood).fdb;
            (mac in fdb && fdb[mac] == p) <==> LatestEntered(Effects(actions, disableFlood), mac, p)
  {
    FdbReplaysEffects(actions, disableFlood);
    ReplayIsLatest(Effects(actions, disableFlood), mac, p);
  }

  lemma {:induction false} FdbReplaysEffects(actions: seq<Action>, disableFlood: bool)
    ensures Exec(actions, disableFlood).fdb == Replay(Effects(actions, disableFlood))
    decreases |actions|
  {
    if actions != [] {
      var front, last := actions[..|actions| - 1], actions[|actions| - 1];
      FdbReplaysEffects(front, disableFlood);
      StepHasItsMeaning(Exec(front, disableFlood), last, disableFlood, Effects(front, disableFlood));
    }
  }

  lemma StepHasItsMeaning(s: State, a: Action, disableFlood: bool, history: seq<Happening>)
    requires s.fdb == Replay(history)
    ensures Step(s, a, disableFlood).fdb == Replay(history + Meaning(s, a))
  {
    var meaning := Meaning(s, a);
    StepUpdatesFdb(s, a, disableFlood);
    if meaning == [] {
      assert history + meaning == history;
    } else {
      assert meaning == [meaning[0]];
      ReplayNext(history, meaning[0]);
    }
  }

  lemma StepUpdatesFdb(s: State, a: Action, disableFlood: bool)
    ensures |Meaning(s, a)| <= 1
    ensures Step(s, a, disableFlood).fdb == if Meaning(s, a) == [] then s.fdb else Update(s.fdb, Meaning(s, a)[0])
  {
  }

  // ------------------------------------------------------------ what is written

  /** The writes of a delivery so far: one to each of the first ports found. */
  ghost predicate WrittenInOrder(d: Delivery) {
    |d.written| <= |d.found| && WritesAll(d.written, d.found[..|d.written|], d.frame)
  }

  /** Reader `r` still has to write what remains of its delivery. */
  ghost predicate Pursues(s: State, r: nat) {
    r < |s.readers| && s.readers[r].phase.Sending? ==>
      var phase := s.readers[r].phase;
      && phase.delivery < |s.deliveries|
      && var d := s.deliveries[phase.delivery];
         d.reader == r && d.frame == phase.frame && |d.written| <= |d.found| && phase.targets == d.found[|d.written|..]
  }

  /** Delivery `i` is in order, and complete unless its reader is still at it. */
  ghost predicate Progresses(s: State, i: nat) {
    i < |s.deliveries| ==>
      var d := s.deliveries[i];
      && WrittenInOrder(d)
      && (|d.written| < |d.found| ==>
            d.reader < |s.readers| && s.readers[d.reader].phase.Sending? && s.readers[d.reader].phase.delivery == i)
  }

  ghost predicate Delivering(s: State) {
    (forall r: nat :: Pursues(s, r)) && (forall i: nat :: Progresses(s, i))
  }

  lemma SentKeepsDelivering(s: State, r: nat, ok: bool)
    requires Delivering(s) && r < |s.readers| && s.readers[r].phase.Sending?
    ensures Delivering(Sent(s, r, ok))
  {
    var t, phase := Sent(s, r, ok), s.readers[r].phase;
    assert Pursues(s, r) && Progresses(s, phase.delivery);
    forall q: nat ensures Pursues(t, q) {
      assert Pursues(s, q);
    }
    forall i: nat ensures Progresses(t, i) {
      assert Progresses(s, i);
      if i == phase.delivery && phase.targets != [] {
        NextWrite(s.deliveries[i], ok);
      }
    }
  }

  lemma NextWrite(d: Delivery, ok: bool)
    requires WrittenInOrder(d) && |d.written| < |d.found|
    ensures WrittenInOrder(d.(written := d.written + [Write(d.found[|d.written|].id, d.frame, ok)]))
  {
    var n := |d.written|;
    assert d.found[..n + 1] == d.found[..n] + [d.found[n]];
  }

  lemma LookupKeepsDelivering(s: State, r: nat, disableFlood: bool)
    requires Delivering(s) && LooksUp(s, r)
    ensures Delivering(Step(s, Lookup(r), disableFlood))
  {
    var t := Step(s, Lookup(r), disableFlood);
    forall q: nat ensures Pursues(t, q) {
      assert Pursues(s, q);
    }
    forall i: nat ensures Progresses(t, i) {
      assert Progresses(s, i);
    }
  }

  lemma StepKeepsDelivering(s: State, a: Action, disableFlood: bool)
    requires Delivering(s)
    ensures Delivering(Step(s, a, disableFlood))
  {
    var t := Step(s, a, disableFlood);
    if a.Send? && a.reader < |s.readers| && s.readers[a.reader].phase.Sending? {
      SentKeepsDelivering(s, a.reader, a.ok);
    } else if a.Lookup? && LooksUp(s, a.reader) {
      LookupKeepsDelivering(s, a.reader, disableFlood);
    } else {
      forall q: nat ensures Pursues(t, q) {
        assert Pursues(s, q);
      }
      forall i: nat ensures Progresses(t, i) {
        assert Progresses(s, i);
      }
    }
  }

  lemma {:induction false} AlwaysDelivering(actions: seq<Action>, disableFlood: bool)
    ensures Delivering(Exec(actions, disableFlood))
    decreases |actions|
  {
    if actions == [] {
      forall q: nat ensures Pursues(INITIAL, q) {
      }
      forall i: nat ensures Progresses(INITIAL, i) {
      }
    } else {
      AlwaysDelivering(actions[..|actions| - 1], disableFlood);
      StepKeepsDelivering(Exec(actions[..|actions| - 1], disableFlood), actions[|actions| - 1], disableFlood);
    }
  }

  /** Under every interleaving, whatever is removed meanwhile, a looked-up frame is
      written to the ports found, in that order and at most once each; when its
      reader has left it, to all of them. */
  lemma EveryDeliveryIsWritten(actions: seq<Action>, disableFlood: bool, i: nat)
    requires i < |Exec(actions, disableFlood).deliveries|
    ensures var s := Exec(actions, disableFlood);
            var d := s.deliveries[i];
            && WrittenInOrder(d)
            && (WritesAll(d.written, d.found, d.frame)
                || (d.reader < |s.readers| && s.readers[d.reader].phase.Sending?
                    && s.readers[d.reader].phase.delivery == i))
  {
    AlwaysDelivering(actions, disableFlood);
    var s := Exec(actions, disableFlood);
    assert Progresses(s, i);
    var d := s.deliveries[i];
    if |d.written| == |d.found| {
      assert d.found[..|d.written|] == d.found;
    }
  }

  /** Delivery `i` takes `frame` from reader `r` to the ports in `found`. */
  ghost predicate About(s: State, i: nat, r: nat, frame: seq<byte>, found: seq<Port>) {
    && i < |s.deliveries|
    && s.deliveries[i].reader == r && s.deliveries[i].frame == frame && s.deliveries[i].found == found
  }

  lemma StepKeepsDelivery(s: State, a: Action, disableFlood: bool, i: nat, r: nat, frame: seq<byte>, found: seq<Port>)
    requires About(s, i, r, frame, found)
    ensures About(Step(s, a, disableFlood), i, r, frame, found)
  {
  }

  lemma {:induction false} DeliveryIsKept(actions: seq<Action>, more: seq<Action>, disableFlood: bool,
                                          i: nat, r: nat, frame: seq<byte>, found: seq<Port>)
    requires About(Exec(actions, disableFlood), i, r, frame, found)
    ensures About(Exec(actions + more, disableFlood), i, r, frame, found)
    decreases |more|
  {
    if more == [] {
      assert actions + more == actions;
    } else {
      var front, last := more[..|more| - 1], more[|more| - 1];
      DeliveryIsKept(actions, front, disableFlood, i, r, frame, found);
      assert actions + more == actions + front + [last];
      ExecNext(actions + front, last, disableFlood);
      StepKeepsDelivery(Exec(actions + front, disableFlood), last, disableFlood, i, r, frame, found);
    }
  }

  /** A lookup opens a delivery to the ports it finds, and no later step changes
      what the delivery is about. */
  lemma DeliveryIsWhatWasFound(actions: seq<Action>, r: nat, more: seq<Action>, disableFlood: bool)
    requires LooksUp(Exec(actions, disableFlood), r)
    ensures var s := Exec(actions, disableFlood);
            About(Exec(actions + [Lookup(r)] + more, disableFlood), |s.deliveries|,
                  r, s.readers[r].phase.frame, Found(s, r, disableFlood))
  {
    var s := Exec(actions, disableFlood);
    ExecNext(actions, Lookup(r), disableFlood);
    DeliveryIsKept(actions + [Lookup(r)], more, disableFlood, |s.deliveries|,
                   r, s.readers[r].phase.frame, Found(s, r, disableFlood));
  }

  // ------------------------------------------------------------ dangling entries

  /** A reader records an address after its own port was removed. */
  ghost predicate LearnsLate(s: State, a: Action) {
    && a.Learn? && a.reader < |s.readers| && s.readers[a.reader].phase.Holding?
    && |s.readers[a.reader].phase.frame| >= HEADER_LENGTH
    && Source(s.readers[a.reader].phase.frame) != BROADCAST
    && s.readers[a.reader].port !in s.ports
  }

  lemma StepKeepsEntries(s: State, a: Action, disableFlood: bool)
    requires PointsInto(s.fdb, s.ports)
    ensures var t := Step(s, a, disableFlood); PointsInto(t.fdb, t.ports) <==> !LearnsLate(s, a)
  {
    if LearnsLate(s, a) {
      var mac := Source(s.readers[a.reader].phase.frame);
      var t := Step(s, a, disableFlood);
      assert mac in t.fdb && t.fdb[mac] == s.readers[a.reader].port;
    }
  }

  /** At every point of the run, every entry names an attached port. */
  ghost predicate StaysWithin(actions: seq<Action>, disableFlood: bool) {
    && (actions != [] ==> StaysWithin(actions[..|actions| - 1], disableFlood))
    && PointsInto(Exec(actions, disableFlood).fdb, Exec(actions, disableFlood).ports)
  }

  /** Some step of the run learns late. */
  ghost predicate SomeoneLearnsLate(actions: seq<Action>, disableFlood: bool) {
    && actions != []
    && var front := actions[..|actions| - 1];
       || SomeoneLearnsLate(front, disableFlood)
       || LearnsLate(Exec(front, disableFlood), actions[|actions| - 1])
  }

  /** The forwarding database stays within the attached ports throughout a run
      exactly when no step of the run learns late. */
  lemma {:induction false} EntriesDangleOnlyAfterLateLearning(actions: seq<Action>, disableFlood: bool)
    ensures StaysWithin(actions, disableFlood) <==> !SomeoneLearnsLate(actions, disableFlood)
    decreases |actions|
  {
    if actions != [] {
      var front, last := actions[..|actions| - 1], actions[|actions| - 1];
      EntriesDangleOnlyAfterLateLearning(front, disableFlood);
      var s := Exec(front, disableFlood);
      if PointsInto(s.fdb, s.ports) {
        StepKeepsEntries(s, last, disableFlood);
      }
    }
  }

  lemma ExecNext(actions: seq<Action>, a: Action, disableFlood: bool)
    ensures Exec(actions + [a], disableFlood) == Step(Exec(actions, disableFlood), a, disableFlood)
  {
    assert (actions + [a])[..|actions|] == actions;
  }

  /** Such a run exists: the port goes away between receiving and learning. */
  lemma LateLearningHappens(frame: seq<byte>, p: Port)
    requires |frame| >= HEADER_LENGTH && Source(frame) != BROADCAST
    ensures !StaysWithin([Start, Attach(p), Read(0, frame), Remove(p.id), Learn(0)], false)
  {
    var a1 := [Start];
    var a2 := a1 + [Attach(p)];
    var a3 := a2 + [Read(0, frame)];
    var a4 := a3 + [Remove(p.id)];
    assert [Start, Attach(p), Read(0, frame), Remove(p.id), Learn(0)] == a4 + [Learn(0)];
    ExecNext([], Start, false);
    ExecNext(a1, Attach(p), false);
    ExecNext(a2, Read(0, frame), false);
    ExecNext(a3, Remove(p.id), false);
    ExecNext(a4, Learn(0), false);
    assert [] + [Start] == a1 && ReadersFor(Sort([]), 1) == [];
    assert Exec(a4, false).readers == [Reader(p.id, 1, Holding(frame))];
    assert LearnsLate(Exec(a4, false), Learn(0));
    var s := Exec(a4 + [Learn(0)], false);
    assert Source(frame) in s.fdb && s.fdb[Source(frame)] == p.id && p.id !in s.ports;
  }

  // ------------------------------------------------------------ readers

  /** Port `id` has a reader of the current start. */
  ghost predicate IsRead(s: State, id: string) {
    exists r: nat :: r < |s.readers| && s.readers[r].port == id && s.readers[r].epoch == s.epoch
  }

  ghost predicate AllRead(s: State) {
    s.started ==> forall id :: id in s.ports ==> IsRead(s, id)
  }

  /** Readers are only added, and each stays with its port and its start. */
  lemma StepKeepsReaders(s: State, a: Action, disableFlood: bool)
    ensures var t := Step(s, a, disableFlood);
            && |s.readers| <= |t.readers|
            && forall r: nat :: r < |s.readers| ==>
                 t.readers[r].port == s.readers[r].port && t.readers[r].epoch == s.readers[r].epoch
  {
  }

  lemma StillRead(s: State, a: Action, disableFlood: bool, id: string)
    requires IsRead(s, id) && Step(s, a, disableFlood).epoch == s.epoch
    ensures IsRead(Step(s, a, disableFlood), id)
  {
    var r: nat :| r < |s.readers| && s.readers[r].port == id && s.readers[r].epoch == s.epoch;
    StepKeepsReaders(s, a, disableFlood);
  }

  /** Starting a stopped switch gives every attached port a reader. */
  lemma StartReadsAll(s: State, disableFlood: bool, id: string)
    requires OrderMatches(s.ports, s.order) && !s.started && id in s.ports
    ensures IsRead(Step(s, Start, disableFlood), id)
  {
    SortKeepsMembers(s.order);
    var ids := Sort(s.order);
    var i :| 0 <= i < |ids| && ids[i] == id;
    var t := Step(s, Start, disableFlood);
    assert t.readers[|s.readers| + i] == Reader(id, t.epoch, Idle);
  }

  lemma AttachReads(s: State, p: Port, disableFlood: bool)
    requires s.started && p.id !in s.ports
    ensures IsRead(Step(s, Attach(p), disableFlood), p.id)
  {
    assert Step(s, Attach(p), disableFlood).readers[|s.readers|] == Reader(p.id, s.epoch, Idle);
  }

  lemma StepKeepsAllRead(s: State, a: Action, disableFlood: bool)
    requires OrderMatches(s.ports, s.order) && AllRead(s)
    ensures AllRead(Step(s, a, disableFlood))
  {
    var t := Step(s, a, disableFlood);
    if t.started {
      forall id | id in t.ports ensures IsRead(t, id) {
        if a.Start? && !s.started {
          StartReadsAll(s, disableFlood, id);
        } else if a.Attach? && id !in s.ports {
          AttachReads(s, a.port, disableFlood);
        } else {
          assert id in s.ports && t.epoch == s.epoch;
          StillRead(s, a, disableFlood, id);
        }
      }
    }
  }

  /** In every run, every port that is attached while the switch is started has a
      reader of that start, whether it was attached before or after it. */
  lemma {:induction false} EveryPortIsRead(actions: seq<Action>, disableFlood: bool)
    ensures AllRead(Exec(actions, disableFlood))
    decreases |actions|
  {
    if actions != [] {
      var front := actions[..|actions| - 1];
      EveryPortIsRead(front, disableFlood);
      OrderAlwaysMatches(front, disableFlood);
      StepKeepsAllRead(Exec(front, disableFlood), actions[|actions| - 1], disableFlood);
    }
  }

  // ------------------------------------------------------------ the undisturbed reader

  /** Reader `r` performs one write for each answer in `oks`. */
  ghost function SendAll(s: State, r: nat, oks: seq<bool>, disableFlood: bool): State
    decreases |oks|
  {
    if oks == [] then s else SendAll(Step(s, Send(r, oks[0]), disableFlood), r, oks[1..], disableFlood)
  }

  ghost function WritesTo(targets: seq<Port>, frame: seq<byte>, oks: seq<bool>): seq<Write>
    requires |targets| == |oks|
  {
    seq(|oks|, i requires 0 <= i < |oks| => Write(targets[i].id, frame, oks[i]))
  }

  /** Reader `r` is sending `frame` to `targets` for its delivery `d`. */
  ghost predicate SendingTo(s: State, r: nat, frame: seq<byte>, targets: seq<Port>, d: nat) {
    r < |s.readers| && s.readers[r].phase == Sending(frame, targets, d) && d < |s.deliveries|
  }

  lemma {:induction false} SendAllWrites(s: State, r: nat, frame: seq<byte>, targets: seq<Port>, d: nat,
                                         oks: seq<bool>, disableFlood: bool)
    requires SendingTo(s, r, frame, targets, d) && |oks| == |targets|
    ensures var t := SendAll(s, r, oks, disableFlood);
            && SendingTo(t, r, frame, [], d)
            && t.ports == s.ports && t.fdb == s.fdb && |t.deliveries| == |s.deliveries|
            && t.deliveries[d].written == s.deliveries[d].written + WritesTo(targets, frame, oks)
    decreases |oks|
  {
    if oks == [] {
      assert targets == [];
      assert s.deliveries[d].written + WritesTo(targets, frame, oks) == s.deliveries[d].written;
    } else {
      var t := Step(s, Send(r, oks[0]), disableFlood);
      assert SendingTo(t, r, frame, targets[1..], d);
      SendAllWrites(t, r, frame, targets[1..], d, oks[1..], disableFlood);
      assert WritesTo(targets, frame, oks)
          == [Write(targets[0].id, frame, oks[0])] + WritesTo(targets[1..], frame, oks[1..]);
    }
  }

  /** A reader nobody disturbs does in its steps what the switch does with a frame in
      one piece: it records the source, looks up the destination in what it then
      knows, writes the frame to each port found and reads on. */
  lemma UndisturbedReaderSwitches(s: State, r: nat, dst: Mac, src: Mac, rest: seq<byte>, oks: seq<bool>, disableFlood: bool)
    requires r < |s.readers| && s.readers[r].phase == Idle
    requires |dst| == |src| == 6 && |dst + src + rest| >= HEADER_LENGTH && src != BROADCAST
    requires var fdb := s.fdb[src := s.readers[r].port];
             |oks| == |Targets(s.ports, s.order, fdb, disableFlood, s.readers[r].port, dst)|
    ensures var frame, port := dst + src + rest, s.readers[r].port;
            var fdb := s.fdb[src := port];
            var found := Targets(s.ports, s.order, fdb, disableFlood, port, dst);
            var read := Step(s, Read(r, frame), disableFlood);
            var after := Step(Step(read, Learn(r), disableFlood), Lookup(r), disableFlood);
            var t := Step(SendAll(after, r, oks, disableFlood), Send(r, true), disableFlood);
            && t.fdb == fdb && t.ports == s.ports
            && r < |t.readers| && t.readers[r] == s.readers[r]
            && |t.deliveries| == |s.deliveries| + 1
            && t.deliveries[|s.deliveries|] == Delivery(r, frame, found, WritesTo(found, frame, oks))
  {
    var frame, port := dst + src + rest, s.readers[r].port;
    HeaderReads(dst, src, rest);
    var t := ReadLearnLookup(s, r, frame, disableFlood);
    var found := Targets(s.ports, s.order, t.fdb, disableFlood, port, dst);
    SendAllWrites(t, r, frame, found, |s.deliveries|, oks, disableFlood);
    SendAllKeeps(t, r, oks, disableFlood, |s.deliveries|);
    assert [] + WritesTo(found, frame, oks) == WritesTo(found, frame, oks);
  }

  /** The first three steps of a reader. */
  ghost function ReadLearnLookup(s: State, r: nat, frame: seq<byte>, disableFlood: bool): (t: State)
    requires r < |s.readers| && s.readers[r].phase == Idle && |frame| >= HEADER_LENGTH
    ensures t.fdb == Update(s.fdb, Received(s.readers[r].port, frame)) && t.ports == s.ports && t.order == s.order
    ensures var found := Targets(s.ports, s.order, t.fdb, disableFlood, s.readers[r].port, Destination(frame));
            && |t.readers| == |s.readers| && t.readers[r] == s.readers[r].(phase := Sending(frame, found, |s.deliveries|))
            && t.deliveries == s.deliveries + [Delivery(r, frame, found, [])]
  {
    var read := Step(s, Read(r, frame), disableFlood);
    Step(Step(read, Learn(r), disableFlood), Lookup(r), disableFlood)
  }

  /** Sending changes nothing else about the reader and the delivery. */
  lemma {:induction false} SendAllKeeps(s: State, r: nat, oks: seq<bool>, disableFlood: bool, d: nat)
    requires r < |s.readers| && d < |s.deliveries|
    ensures var t := SendAll(s, r, oks, disableFlood);
            && r < |t.readers| && t.readers[r].port == s.readers[r].port && t.readers[r].epoch == s.readers[r].epoch
            && About(t, d, s.deliveries[d].reader, s.deliveries[d].frame, s.deliveries[d].found)
    decreases |oks|
  {
    if oks != [] {
      var t := Step(s, Send(r, oks[0]), disableFlood);
      StepKeepsReaders(s, Send(r, oks[0]), disableFlood);
      StepKeepsDelivery(s, Send(r, oks[0]), disableFlood, d,
                        s.deliveries[d].reader, s.deliveries[d].frame, s.deliveries[d].found);
      SendAllKeeps(t, r, oks[1..], disableFlood, d);
    }
  }
}
