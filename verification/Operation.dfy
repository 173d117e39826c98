/** The asynchronous storage operation (`storage/local/operation.go`): a status
    guarded by a mutex, buffered subscriber channels, and one forwarding
    goroutine per subscriber. Every mutex region and every channel operation is
    one step. */
module Operations {

  datatype Event = Started | Completed | Canceled | Failed

  /** The error that `finish` is given: none, one that wraps the context's
      cancellation, or another. */
  datatype Result = Success | Cancellation | OtherError

  datatype Status = Pending | Running | Ended(how: Event)

  /** A buffered channel. */
  datatype Channel = Channel(buffer: seq<Event>, closed: bool)

  const CAPACITY := 16

  /** The forwarding goroutine of `Events`: its loop, then its deferred calls. */
  datatype Phase = Receiving | Holding(event: Event) | Leaving | Closing | Left

  /** One call of `Events`. `since` counts the events that took effect before the
      call; `received` is what the caller has read from `out`. */
  datatype Subscription = Subscription(
    since: nat, subscriber: Channel, phase: Phase, out: Channel, received: seq<Event>, cancelled: bool)

  /** `registered` is the key set of the subscriber map, `log` the events that
      took effect, and `fault` records a blocked broadcast, a second close or a
      send on a closed channel. */
  datatype State = State(
    status: Status, finished: bool, done: bool, registered: set<nat>,
    subs: seq<Subscription>, log: seq<Event>, fault: bool)

  const INITIAL := State(Pending, false, false, {}, [], [], false)

  /** What happens to one subscription: its context is cancelled, its goroutine
      takes a step, or its caller reads. */
  datatype Move = CancelContext | Receive | Forward | NoticeCancel | Unregister | CloseOut | Consume

  datatype Action = Subscribe | Start | Finish(result: Result) | MoveSub(id: nat, move: Move)

  // ------------------------------------------------------------ steps

  function Sent(c: Channel, e: Event): Channel {
    c.(buffer := c.buffer + [e])
  }

  /** `broadcastLocked`: one blocking send per registered subscriber. */
  function Broadcast(s: State, e: Event): (t: State)
    ensures |t.subs| == |s.subs|
  {
    s.(subs := seq(|s.subs|, i requires 0 <= i < |s.subs| =>
                 if i in s.registered then s.subs[i].(subscriber := Sent(s.subs[i].subscriber, e)) else s.subs[i]),
       log := s.log + [e],
       fault := s.fault || exists i | i in s.registered ::
                  i < |s.subs| && (s.subs[i].subscriber.closed || |s.subs[i].subscriber.buffer| >= CAPACITY))
  }

  /** The final loop of `finish`: closes and forgets every subscriber. */
  function CloseAll(s: State): (t: State)
    ensures |t.subs| == |s.subs|
  {
    s.(subs := seq(|s.subs|, i requires 0 <= i < |s.subs| =>
                 if i in s.registered then s.subs[i].(subscriber := s.subs[i].subscriber.(closed := true)) else s.subs[i]),
       registered := {},
       fault := s.fault || exists i | i in s.registered :: i < |s.subs| && s.subs[i].subscriber.closed)
  }

  /** One step; an action that is not enabled changes nothing. */
  function Step(s: State, a: Action): State {
    match a
    case Subscribe =>
      var id := |s.subs|;
      var sub := Subscription(|s.log|, Channel([], s.finished), Receiving, Channel([], false), [], false);
      s.(subs := s.subs + [sub], registered := if s.finished then s.registered else s.registered + {id})
    case Start =>
      if s.finished || s.status != Pending then s else Broadcast(s.(status := Running), Started)
    case Finish(result) =>
      if s.finished then s
      else
        var how := if result.Success? then Completed else if result.Cancellation? then Canceled else Failed;
        var t := Broadcast(s.(status := Ended(how), finished := true), how);
        CloseAll(t.(done := true, fault := t.fault || t.done))
    case MoveSub(id, move) =>
      if id >= |s.subs| then s
      else
        var sub := s.subs[id];
        s.(subs := s.subs[id := Moved(sub, move)],
           registered := if Unregisters(sub, move) then s.registered - {id} else s.registered,
           fault := s.fault || Misuses(sub, move))
  }

  function Moved(sub: Subscription, move: Move): Subscription {
    match move
    case CancelContext => sub.(cancelled := true)
    case Receive =>
      if sub.phase != Receiving then sub
      else if sub.subscriber.buffer != [] then
        sub.(phase := Holding(sub.subscriber.buffer[0]),
             subscriber := sub.subscriber.(buffer := sub.subscriber.buffer[1..]))
      else if sub.subscriber.closed then sub.(phase := Leaving)
      else sub
    case Forward =>
      if !sub.phase.Holding? || |sub.out.buffer| >= CAPACITY then sub
      else sub.(phase := Receiving, out := Sent(sub.out, sub.phase.event))
    case NoticeCancel =>
      if sub.cancelled && (sub.phase.Receiving? || sub.phase.Holding?) then sub.(phase := Leaving) else sub
    case Unregister => if sub.phase == Leaving then sub.(phase := Closing) else sub
    case CloseOut =>
      if sub.phase == Closing then sub.(phase := Left, out := sub.out.(closed := true)) else sub
    case Consume =>
      if sub.out.buffer == [] then sub
      else sub.(received := sub.received + [sub.out.buffer[0]], out := sub.out.(buffer := sub.out.buffer[1..]))
  }

  predicate Unregisters(sub: Subscription, move: Move) {
    move == Unregister && sub.phase == Leaving
  }

  /** Sends to, or closes, an already closed output channel. */
  predicate Misuses(sub: Subscription, move: Move) {
    sub.out.closed && ((move == Forward && sub.phase.Holding?) || (move == CloseOut && sub.phase == Closing))
  }

  ghost function Exec(actions: seq<Action>): State {
    if actions == [] then INITIAL else Step(Exec(actions[..|actions| - 1]), actions[|actions| - 1])
  }

  // ------------------------------------------------------------ invariants

  /** The log and the status tell the same story. */
  ghost predicate LogMatches(s: State) {
    && s.finished == s.status.Ended? == s.done
    && match s.status
       case Pending => s.log == []
       case Running => s.log == [Started]
       case Ended(how) => how != Started && (s.log == [how] || s.log == [Started, how])
  }

  function Held(phase: Phase): seq<Event> {
    if phase.Holding? then [phase.event] else []
  }

  /** Everything on its way to the caller, oldest first. */
  function Pipeline(sub: Subscription): seq<Event> {
    sub.received + sub.out.buffer + Held(sub.phase) + sub.subscriber.buffer
  }

  /** What a subscription keeps, given whether it is registered and what the
      operation has done. */
  ghost predicate SubOk(sub: Subscription, registered: bool, finished: bool, log: seq<Event>) {
    && sub.since <= |log|
    && |sub.subscriber.buffer| <= |log| - sub.since
    && (registered ==> !finished && !sub.subscriber.closed)
    && (sub.out.closed <==> sub.phase.Left?)
    && (!sub.cancelled ==>
          && sub.subscriber.closed == finished
          && registered == !finished
          && Pipeline(sub) == log[sub.since..]
          && (sub.phase.Leaving? || sub.phase.Closing? || sub.phase.Left? ==>
                finished && sub.subscriber.buffer == []))
  }

  ghost predicate SubMatches(s: State, i: nat)
    requires i < |s.subs|
  {
    SubOk(s.subs[i], i in s.registered, s.finished, s.log)
  }

  ghost predicate Inv(s: State) {
    && !s.fault
    && LogMatches(s)
    && (forall i :: i in s.registered ==> i < |s.subs|)
    && (forall i: nat :: i < |s.subs| ==> SubMatches(s, i))
  }

  /** One subscription of a broadcast. */
  lemma SendKeeps(sub: Subscription, registered: bool, log: seq<Event>, e: Event)
    requires SubOk(sub, registered, false, log)
    ensures SubOk(if registered then sub.(subscriber := Sent(sub.subscriber, e)) else sub, registered, false, log + [e])
  {
    assert (log + [e])[sub.since..] == log[sub.since..] + [e];
    if registered {
      assert Pipeline(sub.(subscriber := Sent(sub.subscriber, e))) == Pipeline(sub) + [e];
    }
  }

  lemma BroadcastKeeps(s: State, t: State, e: Event, status: Status)
    requires Inv(s) && !s.finished && |s.log| < 2
    requires t == Broadcast(s.(status := status), e)
    ensures !t.fault
    ensures forall i: nat :: i < |t.subs| ==> SubMatches(t, i)
  {
    forall i: nat | i < |t.subs| ensures SubMatches(t, i) {
      assert SubMatches(s, i);
      SendKeeps(s.subs[i], i in s.registered, s.log, e);
    }
    forall i | i in s.registered ensures |s.subs[i].subscriber.buffer| < CAPACITY && !s.subs[i].subscriber.closed {
      assert SubMatches(s, i);
    }
  }

  /** The ending that each result calls for. */
  ghost predicate EndsWith(result: Result, how: Event) {
    (result, how) in {(Success, Completed), (Cancellation, Canceled), (OtherError, Failed)}
  }

  lemma FinishKeeps(s: State, result: Result, how: Event)
    requires Inv(s) && !s.finished && EndsWith(result, how)
    ensures Inv(Step(s, Finish(result)))
  {
    var b := Broadcast(s.(status := Ended(how)), how);
    BroadcastKeeps(s, b, how, Ended(how));
    var t := Step(s, Finish(result));
    assert t == CloseAll(b.(finished := true, done := true));
    assert !t.fault by {
      forall i | i in s.registered ensures !b.subs[i].subscriber.closed {
        assert SubMatches(s, i);
      }
    }
    forall i: nat | i < |t.subs| ensures SubMatches(t, i) {
      assert SubMatches(s, i) && SubMatches(b, i);
      assert Pipeline(t.subs[i]) == Pipeline(b.subs[i]);
    }
  }

  lemma TakeHead(a: seq<Event>, b: seq<Event>, c: seq<Event>)
    requires b != []
    ensures a + [b[0]] + b[1..] + c == a + b + c
  {
  }

  /** Moving an event along the pipeline loses and reorders nothing. */
  lemma PipelineMoves(sub: Subscription, move: Move)
    requires move == Receive || move == Forward || move == Consume
    ensures Pipeline(Moved(sub, move)) == Pipeline(sub)
  {
    if move == Consume && sub.out.buffer != [] {
      TakeHead(sub.received, sub.out.buffer, Held(sub.phase));
    } else if move == Receive && sub.phase == Receiving && sub.subscriber.buffer != [] {
      var front := sub.received + sub.out.buffer;
      assert front + [] == front;
      TakeHead(front, sub.subscriber.buffer, []);
    } else if move == Forward && sub.phase.Holding? {
      var e := [sub.phase.event];
      assert sub.received + (sub.out.buffer + e) + [] == sub.received + sub.out.buffer + e;
    }
  }

  lemma MoveKeeps(sub: Subscription, move: Move, registered: bool, finished: bool, log: seq<Event>)
    requires SubOk(sub, registered, finished, log)
    ensures SubOk(Moved(sub, move), registered && !Unregisters(sub, move), finished, log)
    ensures !Misuses(sub, move)
  {
    if move == Receive || move == Forward || move == Consume {
      PipelineMoves(sub, move);
    }
  }

  lemma MoveSubKeeps(s: State, id: nat, move: Move)
    requires Inv(s) && id < |s.subs|
    ensures Inv(Step(s, MoveSub(id, move)))
  {
    var t, sub := Step(s, MoveSub(id, move)), s.subs[id];
    assert SubMatches(s, id);
    MoveKeeps(sub, move, id in s.registered, s.finished, s.log);
    assert SubMatches(t, id) by {
      assert t.subs[id] == Moved(sub, move) && t.finished == s.finished && t.log == s.log;
      assert id in t.registered <==> id in s.registered && !Unregisters(sub, move);
    }
    forall i: nat | i < |t.subs| && i != id ensures SubMatches(t, i) {
      assert SubMatches(s, i) && t.subs[i] == s.subs[i];
    }
  }

  lemma StepKeepsInv(s: State, a: Action)
    requires Inv(s)
    ensures Inv(Step(s, a))
  {
    var t := Step(s, a);
    match a
    case Subscribe =>
      forall i: nat | i < |t.subs| ensures SubMatches(t, i) {
        if i < |s.subs| {
          assert SubMatches(s, i);
        } else {
          assert t.log[|s.log|..] == [];
        }
      }
    case Start =>
      if !s.finished && s.status == Pending {
        BroadcastKeeps(s, t, Started, Running);
      }
    case Finish(result) =>
      if !s.finished {
        var how :| EndsWith(result, how);
        FinishKeeps(s, result, how);
      }
    case MoveSub(id, move) =>
      if id < |s.subs| {
        MoveSubKeeps(s, id, move);
      }
  }

  /** In every interleaving no broadcast blocks, and no channel is closed twice
      or sent to after its close. */
  lemma {:induction false} EveryRunIsFaultless(actions: seq<Action>)
    ensures Inv(Exec(actions)) && !Exec(actions).fault
    decreases |actions|
  {
    if actions != [] {
      EveryRunIsFaultless(actions[..|actions| - 1]);
      StepKeepsInv(Exec(actions[..|actions| - 1]), actions[|actions| - 1]);
    }
  }

  /** A subscriber whose context is never cancelled has read a prefix of the
      events that took effect after it subscribed; when it meets the close, it
      has read all of them and the operation has ended. */
  lemma SubscriberSeesEverything(actions: seq<Action>, i: nat)
    requires i < |Exec(actions).subs| && !Exec(actions).subs[i].cancelled
    ensures var s := Exec(actions);
            var sub := s.subs[i];
            && sub.since <= |s.log|
            && sub.received <= s.log[sub.since..]
            && (sub.out.closed && sub.out.buffer == [] ==> sub.received == s.log[sub.since..] && s.status.Ended?)
  {
    EveryRunIsFaultless(actions);
    MatchingSubSeesEverything(Exec(actions), i);
  }

  lemma MatchingSubSeesEverything(s: State, i: nat)
    requires Inv(s) && i < |s.subs| && !s.subs[i].cancelled
    ensures var sub := s.subs[i];
            && sub.since <= |s.log|
            && sub.received <= s.log[sub.since..]
            && (sub.out.closed && sub.out.buffer == [] ==> sub.received == s.log[sub.since..] && s.status.Ended?)
  {
    assert SubMatches(s, i);
    var sub := s.subs[i];
    assert Pipeline(sub) == sub.received + (sub.out.buffer + Held(sub.phase) + sub.subscriber.buffer);
    if sub.out.closed && sub.out.buffer == [] {
      assert Pipeline(sub) == sub.received;
    }
  }

  /** Neither the goroutine nor the caller can take a step. */
  ghost predicate Settled(sub: Subscription) {
    forall move :: move != CancelContext ==> Moved(sub, move) == sub
  }

  /** A stream never gets stuck: once the operation has ended and a subscriber has
      no step left to take, it has read everything and met the close. */
  lemma SettledSubscriberHasAll(actions: seq<Action>, i: nat)
    requires i < |Exec(actions).subs| && !Exec(actions).subs[i].cancelled
    requires Exec(actions).status.Ended? && Settled(Exec(actions).subs[i])
    ensures var s := Exec(actions);
            var sub := s.subs[i];
            sub.out.closed && sub.out.buffer == [] && sub.since <= |s.log| && sub.received == s.log[sub.since..]
  {
    EveryRunIsFaultless(actions);
    var s := Exec(actions);
    assert SubMatches(s, i);
    SettledIsServed(s.subs[i], i in s.registered, s.log);
    MatchingSubSeesEverything(s, i);
  }

  lemma SettledIsServed(sub: Subscription, registered: bool, log: seq<Event>)
    requires SubOk(sub, registered, true, log) && !sub.cancelled && Settled(sub)
    ensures sub.out.closed && sub.out.buffer == []
  {
    assert |Moved(sub, Consume).received| == |sub.received| + if sub.out.buffer == [] then 0 else 1;
    assert Moved(sub, Consume) == sub && Moved(sub, Receive) == sub && Moved(sub, Forward) == sub;
    assert Moved(sub, Unregister) == sub && Moved(sub, CloseOut) == sub;
  }

  // ------------------------------------------------------------ streams settle

  /** How many steps a subscription can still take once nothing more is sent to it. */
  function Effort(sub: Subscription): nat {
    3 * |sub.subscriber.buffer| + 2 * |Held(sub.phase)| + |sub.out.buffer|
    + match sub.phase
      case Receiving => 3
      case Holding(_) => 3
      case Leaving => 2
      case Closing => 1
      case Left => 0
  }

  /** Every step that changes a subscription uses up some of its effort. */
  lemma MoveTakesEffort(sub: Subscription, move: Move)
    requires move != CancelContext && Moved(sub, move) != sub
    ensures Effort(Moved(sub, move)) < Effort(sub)
  {
  }

  /** Whether action `a` moves subscription `i`, cancellation aside. */
  predicate Moves(s: State, a: Action, i: nat) {
    a.MoveSub? && a.id == i < |s.subs| && a.move != CancelContext && Moved(s.subs[i], a.move) != s.subs[i]
  }

  /** How often `more`, carried out from `s`, moves subscription `i`. */
  function CountMoves(s: State, more: seq<Action>, i: nat): nat
    decreases |more|
  {
    if more == [] then 0
    else (if Moves(s, more[0], i) then 1 else 0) + CountMoves(Step(s, more[0]), more[1..], i)
  }

  lemma EndedStepTakesEffort(s: State, a: Action, i: nat)
    requires Inv(s) && s.status.Ended? && i < |s.subs|
    ensures i < |Step(s, a).subs| && Step(s, a).status.Ended?
    ensures Effort(Step(s, a).subs[i]) + (if Moves(s, a, i) then 1 else 0) <= Effort(s.subs[i])
  {
    if Moves(s, a, i) {
      MoveTakesEffort(s.subs[i], a.move);
    }
  }

  /** Whatever else happens after the end, a subscription moves only so often. */
  lemma {:induction false} MovesAreBounded(s: State, more: seq<Action>, i: nat)
    requires Inv(s) && s.status.Ended? && i < |s.subs|
    ensures CountMoves(s, more, i) <= Effort(s.subs[i])
    decreases |more|
  {
    if more != [] {
      StepKeepsInv(s, more[0]);
      EndedStepTakesEffort(s, more[0], i);
      MovesAreBounded(Step(s, more[0]), more[1..], i);
    }
  }

  /** After any run that ended the operation, a subscription that has not settled
      can move, and it can move only a bounded number of times: it settles. */
  lemma EverySubscriberSettles(actions: seq<Action>, more: seq<Action>, i: nat)
    requires Exec(actions).status.Ended? && i < |Exec(actions).subs|
    ensures CountMoves(Exec(actions), more, i) <= Effort(Exec(actions).subs[i])
    ensures Settled(Exec(actions).subs[i]) <==> forall a :: !Moves(Exec(actions), a, i)
  {
    EveryRunIsFaultless(actions);
    var s := Exec(actions);
    MovesAreBounded(s, more, i);
    if forall a :: !Moves(s, a, i) {
      forall move | move != CancelContext ensures Moved(s.subs[i], move) == s.subs[i] {
        assert !Moves(s, MoveSub(i, move), i);
      }
    }
  }

  // ------------------------------------------------------------ the life of an operation

  /** At most a start and one terminal event take effect, in that order. */
  lemma EventsAreStartThenEnd(actions: seq<Action>)
    ensures var log := Exec(actions).log;
            && |log| <= 2
            && (|log| == 2 ==> log[0] == Started && log[1] != Started)
            && (Exec(actions).status.Ended? <==> log != [] && log[|log| - 1] != Started)
  {
    EveryRunIsFaultless(actions);
  }

  lemma ExecNext(actions: seq<Action>, a: Action)
    ensures Exec(actions + [a]) == Step(Exec(actions), a)
  {
    assert (actions + [a])[..|actions|] == actions;
  }

  lemma EndedStaysEnded(s: State, a: Action)
    requires Inv(s) && s.status.Ended?
    ensures Step(s, a).status == s.status && Step(s, a).log == s.log
  {
  }

  /** Once ended, no continuation changes the status or adds an event. */
  lemma {:induction false} TerminalStateIsNeverLeft(actions: seq<Action>, more: seq<Action>)
    requires Exec(actions).status.Ended?
    ensures Exec(actions + more).status == Exec(actions).status
    ensures Exec(actions + more).log == Exec(actions).log
    decreases |more|
  {
    if more == [] {
      assert actions + more == actions;
    } else {
      var front, last := more[..|more| - 1], more[|more| - 1];
      TerminalStateIsNeverLeft(actions, front);
      assert actions + more == actions + front + [last];
      ExecNext(actions + front, last);
      EveryRunIsFaultless(actions + front);
      EndedStaysEnded(Exec(actions + front), last);
    }
  }

  // ------------------------------------------------------------ what a call does

  /** The first `Finish` of an operation that any run can reach decides how it ended
      and announces exactly that; a later one changes nothing. */
  lemma FinishDecides(actions: seq<Action>, result: Result, how: Event)
    requires EndsWith(result, how)
    ensures var s, t := Exec(actions), Exec(actions + [Finish(result)]);
            if s.status.Ended? then t == s
            else t.status == Ended(how) && t.log == s.log + [how] && t.finished && t.done && t.registered == {}
  {
    ExecNext(actions, Finish(result));
    EveryRunIsFaultless(actions);
  }

  /** `Start` sets a pending operation running and announces it; otherwise it does
      nothing. */
  lemma StartAnnounces(actions: seq<Action>)
    ensures var s, t := Exec(actions), Exec(actions + [Start]);
            if s.status == Pending then t.status == Running && t.log == s.log + [Started] && !t.finished
            else t == s
  {
    ExecNext(actions, Start);
    EveryRunIsFaultless(actions);
  }

  ghost function Ending(result: Result): (how: Event)
    ensures EndsWith(result, how)
  {
    match result
    case Success => Completed
    case Cancellation => Canceled
    case OtherError => Failed
  }

  /** The outcome of a run is its first `Finish`. */
  ghost function Outcome(actions: seq<Action>): Status {
    if actions == [] then Pending
    else if actions[0].Finish? then Ended(Ending(actions[0].result))
    else
      var later := Outcome(actions[1..]);
      if actions[0].Start? && later == Pending then Running else later
  }

  lemma {:induction false} OutcomeNext(actions: seq<Action>, a: Action)
    ensures var was, now := Outcome(actions), Outcome(actions + [a]);
            if was.Ended? then now == was
            else if a.Finish? then now == Ended(Ending(a.result))
            else if a.Start? then now == Running
            else now == was
    decreases |actions|
  {
    if actions == [] {
      assert actions + [a] == [a] && [a][1..] == [];
    } else {
      assert (actions + [a])[1..] == actions[1..] + [a];
      OutcomeNext(actions[1..], a);
    }
  }

  /** In every run the status is what the order of the calls says: how the first
      `Finish` ended it, else running once it was started, else pending. */
  lemma {:induction false} StatusIsOutcome(actions: seq<Action>)
    ensures Exec(actions).status == Outcome(actions)
    decreases |actions|
  {
    if actions != [] {
      var front, last := actions[..|actions| - 1], actions[|actions| - 1];
      assert actions == front + [last];
      StatusIsOutcome(front);
      OutcomeNext(front, last);
      EveryRunIsFaultless(front);
      ExecNext(front, last);
    }
  }

  /** A cancelled subscription that has settled has been served its close too, and is
      no longer registered. */
  lemma CancelledSubscriberIsReleased(actions: seq<Action>, i: nat)
    requires i < |Exec(actions).subs| && Exec(actions).subs[i].cancelled && Settled(Exec(actions).subs[i])
    ensures Exec(actions).subs[i].out.closed && i !in Exec(actions).registered
  {
    EveryRunIsFaultless(actions);
    LeftAreUnregistered(actions);
    var s := Exec(actions);
    assert SubMatches(s, i) && Gone(s, i);
    SettledCancelledHasLeft(s.subs[i]);
  }

  lemma SettledCancelledHasLeft(sub: Subscription)
    requires sub.cancelled && Settled(sub)
    ensures sub.phase == Left
  {
    assert Moved(sub, NoticeCancel) == sub && Moved(sub, Unregister) == sub && Moved(sub, CloseOut) == sub;
  }

  /** A goroutine past its first deferred call is not registered. */
  ghost predicate Gone(s: State, i: nat) {
    i < |s.subs| && (s.subs[i].phase == Closing || s.subs[i].phase == Left) ==> i !in s.registered
  }

  lemma StepKeepsGone(s: State, a: Action, i: nat)
    requires Gone(s, i)
    ensures Gone(Step(s, a), i)
  {
    if a.MoveSub? && a.id == i < |s.subs| {
      assert Moved(s.subs[i], a.move).phase == Closing ==> s.subs[i].phase == Closing || Unregisters(s.subs[i], a.move);
    }
  }

  lemma {:induction false} LeftAreUnregistered(actions: seq<Action>)
    ensures forall i: nat :: Gone(Exec(actions), i)
    decreases |actions|
  {
    if actions == [] {
      forall i: nat ensures Gone(INITIAL, i) {
      }
    } else {
      var front, last := actions[..|actions| - 1], actions[|actions| - 1];
      LeftAreUnregistered(front);
      forall i: nat ensures Gone(Exec(actions), i) {
        StepKeepsGone(Exec(front), last, i);
      }
    }
  }
}
