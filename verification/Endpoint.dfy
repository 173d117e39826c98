/** Native endpoints and their packet workers (`virt/emulator/shitnet/adapter.go`).
    Adapter calls are serialized by their caller; packet workers run beside them.
    Every mutex region, native call boundary and channel operation is a step. */
module Endpoints {
  import opened Options

  /** A packet worker: its receive loop, which looks at the context before each read,
      then its deferred cleanup, ending with `close(done)`. */
  datatype Phase = Checking | Reading | InNative | Writing | ClosingPort | Publishing | Signalling | Exited

  /** `failed` holds the local error variable of the worker. */
  datatype Worker = Worker(phase: Phase, cancelled: bool, failed: bool)

  datatype Holder = Free | ByWorker(run: nat) | ByCaller

  /** One endpoint object. `workers` lists every worker ever started; the fields
      `cancel`, `port` and `done` of the source belong to the last one.
      `failure` names the run whose error is recorded. */
  datatype Endpoint = Endpoint(
    running: bool, failure: Option<nat>, mutex: Holder, workers: seq<Worker>, stackClosed: bool)

  const NEW_WORKER := Worker(Checking, false, false)
  const NEW_ENDPOINT := Endpoint(false, None, Free, [], false)

  /** What follows a successful `Stop` inside the same adapter call. */
  datatype Next = Return | StartAgain | CloseStack

  /** The adapter call in progress. */
  datatype Call =
    | Idle
    | Stopping(id: string, next: Next)
    | Starting(id: string)
    | Deleting(id: string)
    | InClose(id: string)

  datatype State = State(endpoints: seq<Endpoint>, nodes: map<string, nat>, call: Call)

  const INITIAL := State([], map[], Idle)

  datatype WorkerMove =
    | CheckContext
    | ReceiveFrame
    | ReadNothing
    | LeaveNative(fails: bool)
    | FramesWritten(fails: bool)
    | ReadFails
    | PortClosed(fails: bool)
    | Publish
    | SignalDone

  datatype Action =
    | Create(id: string)
    | BeginStart(id: string)
    | BeginStop(id: string, next: Next)
    | StartRegion(binds: bool)
    | StopSucceeds
    | StopFails
    | EnterClose
    | LeaveClose
    | ContextDone(obj: nat, run: nat)
    | Work(obj: nat, run: nat, move: WorkerMove)

  // ------------------------------------------------------------ steps

  function SetWorker(e: Endpoint, r: nat, phase: Phase): Endpoint
    requires r < |e.workers|
  {
    e.(workers := e.workers[r := e.workers[r].(phase := phase)])
  }

  /** The same, with an error noted when the step failed. */
  function SetOutcome(e: Endpoint, r: nat, phase: Phase, fails: bool): Endpoint
    requires r < |e.workers|
  {
    var w := e.workers[r];
    e.(workers := e.workers[r := w.(phase := phase, failed := w.failed || fails)])
  }

  /** A step of worker `r`; a move that is not enabled changes nothing. */
  function Worked(e: Endpoint, r: nat, move: WorkerMove): Endpoint
    requires r < |e.workers|
  {
    var w := e.workers[r];
    match move
    case CheckContext =>
      if w.phase == Checking then SetWorker(e, r, if w.cancelled then ClosingPort else Reading) else e
    case ReadNothing => if w.phase == Reading then SetWorker(e, r, Checking) else e
    case ReceiveFrame =>
      if w.phase == Reading && e.mutex.Free? then SetWorker(e, r, InNative).(mutex := ByWorker(r)) else e
    case LeaveNative(fails) =>
      if w.phase == InNative then SetOutcome(e, r, if fails then ClosingPort else Writing, fails).(mutex := Free) else e
    case FramesWritten(fails) =>
      if w.phase == Writing then SetOutcome(e, r, if fails then ClosingPort else Checking, fails) else e
    case ReadFails => if w.phase == Reading then SetOutcome(e, r, ClosingPort, true) else e
    case PortClosed(fails) => if w.phase == ClosingPort then SetOutcome(e, r, Publishing, fails) else e
    case Publish =>
      if w.phase == Publishing && e.mutex.Free? then
        SetWorker(e, r, Signalling).(running := false, failure := if w.failed && !w.cancelled then Some(r) else None)
      else e
    case SignalDone => if w.phase == Signalling then SetWorker(e, r, Exited) else e
  }

  /** `done` is nil or closed. */
  predicate Joined(e: Endpoint) {
    e.workers == [] || e.workers[|e.workers| - 1].phase == Exited
  }

  /** The locked region of `Start`: nothing when running, an error while the old
      worker is still leaving, otherwise a new worker if the port binds. */
  function Started(e: Endpoint, binds: bool): Endpoint {
    if e.running || !Joined(e) || !binds then e
    else e.(running := true, failure := None, workers := e.workers + [NEW_WORKER])
  }

  function Cancelled(e: Endpoint, r: nat): Endpoint {
    if r < |e.workers| then e.(workers := e.workers[r := e.workers[r].(cancelled := true)]) else e
  }

  function Set(s: State, obj: nat, e: Endpoint): State
    requires obj < |s.endpoints|
  {
    s.(endpoints := s.endpoints[obj := e])
  }

  /** The object a call in progress works on. */
  predicate OnNode(s: State, id: string) {
    id in s.nodes && s.nodes[id] < |s.endpoints|
  }

  function Step(s: State, a: Action): State {
    match a
    case Create(id) =>
      if s.call != Idle || id in s.nodes then s
      else s.(endpoints := s.endpoints + [NEW_ENDPOINT], nodes := s.nodes[id := |s.endpoints|])
    case BeginStart(id) =>
      if s.call != Idle || !OnNode(s, id) then s else s.(call := Starting(id))
    case BeginStop(id, next) =>
      if s.call != Idle || !OnNode(s, id) || !s.endpoints[s.nodes[id]].mutex.Free? then s
      else
        var e := s.endpoints[s.nodes[id]];
        var t := s.(call := Stopping(id, next));
        if e.workers == [] then t else Set(t, s.nodes[id], Cancelled(e, |e.workers| - 1))
    case StartRegion(binds) =>
      if s.call.Starting? && OnNode(s, s.call.id) && s.endpoints[s.nodes[s.call.id]].mutex.Free? then
        var obj := s.nodes[s.call.id];
        Set(s.(call := Idle), obj, Started(s.endpoints[obj], binds))
      else s
    case StopSucceeds =>
      if s.call.Stopping? && OnNode(s, s.call.id) && Joined(s.endpoints[s.nodes[s.call.id]]) then
        match s.call.next
        case Return => s.(call := Idle)
        case StartAgain => s.(call := Starting(s.call.id))
        case CloseStack => s.(call := Deleting(s.call.id))
      else s
    case StopFails => if s.call.Stopping? then s.(call := Idle) else s
    case EnterClose =>
      if s.call.Deleting? && OnNode(s, s.call.id) && s.endpoints[s.nodes[s.call.id]].mutex.Free? then
        var obj := s.nodes[s.call.id];
        Set(s.(call := InClose(s.call.id)), obj, s.endpoints[obj].(mutex := ByCaller))
      else s
    case LeaveClose =>
      if s.call.InClose? && OnNode(s, s.call.id) then
        var obj := s.nodes[s.call.id];
        Set(s.(call := Idle, nodes := s.nodes - {s.call.id}), obj,
            s.endpoints[obj].(mutex := Free, stackClosed := true))
      else s
    case ContextDone(obj, run) =>
      if obj < |s.endpoints| then Set(s, obj, Cancelled(s.endpoints[obj], run)) else s
    case Work(obj, run, move) =>
      if obj < |s.endpoints| && run < |s.endpoints[obj].workers|
      then Set(s, obj, Worked(s.endpoints[obj], run, move)) else s
  }

  ghost function Exec(actions: seq<Action>): State {
    if actions == [] then INITIAL else Step(Exec(actions[..|actions| - 1]), actions[|actions| - 1])
  }

  // ------------------------------------------------------------ invariants

  ghost predicate EndpointOk(e: Endpoint, callerInside: bool) {
    && (forall r: nat :: r + 1 < |e.workers| ==> e.workers[r].phase == Exited)
    && (forall r: nat :: r < |e.workers| ==> (e.workers[r].phase == InNative <==> e.mutex == ByWorker(r)))
    && (e.mutex.ByWorker? ==> e.mutex.run < |e.workers|)
    && (e.mutex == ByCaller <==> callerInside)
    && (e.running <==> e.workers != [] && !e.workers[|e.workers| - 1].phase.Signalling?
                       && !e.workers[|e.workers| - 1].phase.Exited?)
    && (e.failure.Some? ==> e.failure.value + 1 == |e.workers|)
    && (e.stackClosed ==> Joined(e) && e.mutex == Free)
  }

  ghost predicate InsideClose(s: State, obj: nat) {
    s.call.InClose? && s.call.id in s.nodes && s.nodes[s.call.id] == obj
  }

  ghost predicate NodesOk(s: State) {
    && (forall id :: id in s.nodes ==> s.nodes[id] < |s.endpoints| && !s.endpoints[s.nodes[id]].stackClosed)
    && (forall a, b :: a in s.nodes && b in s.nodes && s.nodes[a] == s.nodes[b] ==> a == b)
  }

  ghost predicate Inv(s: State) {
    && NodesOk(s)
    && (!s.call.Idle? ==> s.call.id in s.nodes)
    && (s.call.Deleting? || s.call.InClose? ==> Joined(s.endpoints[s.nodes[s.call.id]]))
    && (forall obj: nat :: obj < |s.endpoints| ==> EndpointOk(s.endpoints[obj], InsideClose(s, obj)))
  }

  lemma WorkedKeeps(e: Endpoint, r: nat, move: WorkerMove, callerInside: bool)
    requires EndpointOk(e, callerInside) && r < |e.workers|
    ensures EndpointOk(Worked(e, r, move), callerInside)
    ensures Joined(e) ==> Worked(e, r, move) == e
    ensures Worked(e, r, move).stackClosed == e.stackClosed
  {
    var w, after := e.workers[r], Worked(e, r, move);
    assert |after.workers| == |e.workers| && forall q: nat | q < |e.workers| && q != r :: after.workers[q] == e.workers[q];
  }

  lemma StartedKeeps(e: Endpoint, binds: bool)
    requires EndpointOk(e, false) && !e.stackClosed && e.mutex.Free?
    ensures EndpointOk(Started(e, binds), false) && !Started(e, binds).stackClosed
  {
  }

  lemma CancelledKeeps(e: Endpoint, r: nat, callerInside: bool)
    requires EndpointOk(e, callerInside)
    ensures EndpointOk(Cancelled(e, r), callerInside)
    ensures Joined(Cancelled(e, r)) == Joined(e) && Cancelled(e, r).stackClosed == e.stackClosed
  {
  }

  /** Replacing one endpoint by a good one that is as joined and as open as
      before keeps the whole state good. */
  lemma SetKeeps(s: State, obj: nat, e: Endpoint)
    requires Inv(s) && obj < |s.endpoints|
    requires EndpointOk(e, InsideClose(s, obj)) && e.stackClosed == s.endpoints[obj].stackClosed
    requires Joined(s.endpoints[obj]) ==> Joined(e)
    ensures Inv(Set(s, obj, e))
  {
    var t := Set(s, obj, e);
    forall o: nat | o < |t.endpoints| ensures EndpointOk(t.endpoints[o], InsideClose(t, o)) {
      assert InsideClose(t, o) == InsideClose(s, o);
      assert EndpointOk(s.endpoints[o], InsideClose(s, o));
    }
  }

  /** A change of the call in progress that stays outside the close region. */
  lemma CallKeeps(s: State, call: Call)
    requires Inv(s) && !s.call.InClose? && !call.InClose?
    requires !call.Idle? ==> call.id in s.nodes
    requires call.Deleting? ==> Joined(s.endpoints[s.nodes[call.id]])
    ensures Inv(s.(call := call))
  {
    var t := s.(call := call);
    forall o: nat | o < |t.endpoints| ensures EndpointOk(t.endpoints[o], InsideClose(t, o)) {
      assert EndpointOk(s.endpoints[o], InsideClose(s, o));
    }
  }

  lemma EnterCloseKeeps(s: State)
    requires Inv(s)
    ensures Inv(Step(s, EnterClose))
  {
    var t := Step(s, EnterClose);
    forall o: nat | o < |t.endpoints| ensures EndpointOk(t.endpoints[o], InsideClose(t, o)) {
      assert EndpointOk(s.endpoints[o], InsideClose(s, o));
    }
  }

  lemma LeaveCloseKeeps(s: State)
    requires Inv(s)
    ensures Inv(Step(s, LeaveClose))
  {
    var t := Step(s, LeaveClose);
    forall o: nat | o < |t.endpoints| ensures EndpointOk(t.endpoints[o], InsideClose(t, o)) {
      assert EndpointOk(s.endpoints[o], InsideClose(s, o));
    }
  }

  lemma StartRegionKeeps(s: State, binds: bool)
    requires Inv(s)
    ensures Inv(Step(s, StartRegion(binds)))
  {
    if s.call.Starting? && s.endpoints[s.nodes[s.call.id]].mutex.Free? {
      var obj := s.nodes[s.call.id];
      var t := Step(s, StartRegion(binds));
      forall o: nat | o < |t.endpoints| ensures EndpointOk(t.endpoints[o], InsideClose(t, o)) {
        assert EndpointOk(s.endpoints[o], InsideClose(s, o));
        if o == obj {
          StartedKeeps(s.endpoints[obj], binds);
        }
      }
    }
  }

  lemma CreateKeeps(s: State, a: Action)
    requires Inv(s) && a.Create?
    ensures Inv(Step(s, a))
  {
    var t := Step(s, a);
    forall o: nat | o < |t.endpoints| ensures EndpointOk(t.endpoints[o], InsideClose(t, o)) {
      if o < |s.endpoints| {
        assert EndpointOk(s.endpoints[o], InsideClose(s, o));
      }
    }
  }

  lemma BeginStartKeeps(s: State, id: string)
    requires Inv(s)
    ensures Inv(Step(s, BeginStart(id)))
  {
    if s.call == Idle && OnNode(s, id) {
      CallKeeps(s, Starting(id));
    }
  }

  lemma BeginStopKeeps(s: State, id: string, next: Next)
    requires Inv(s)
    ensures Inv(Step(s, BeginStop(id, next)))
  {
    if s.call == Idle && OnNode(s, id) && s.endpoints[s.nodes[id]].mutex.Free? {
      CallKeeps(s, Stopping(id, next));
      var t, e := s.(call := Stopping(id, next)), s.endpoints[s.nodes[id]];
      if e.workers != [] {
        CancelledKeeps(e, |e.workers| - 1, false);
        SetKeeps(t, s.nodes[id], Cancelled(e, |e.workers| - 1));
      }
    }
  }

  lemma StopKeeps(s: State, a: Action)
    requires Inv(s) && (a.StopSucceeds? || a.StopFails?)
    ensures Inv(Step(s, a))
  {
    if s.call.Stopping? && (a.StopFails? || Joined(s.endpoints[s.nodes[s.call.id]])) {
      CallKeeps(s, Step(s, a).call);
    }
  }

  lemma ContextDoneKeeps(s: State, obj: nat, run: nat)
    requires Inv(s)
    ensures Inv(Step(s, ContextDone(obj, run)))
  {
    if obj < |s.endpoints| {
      CancelledKeeps(s.endpoints[obj], run, InsideClose(s, obj));
      SetKeeps(s, obj, Cancelled(s.endpoints[obj], run));
    }
  }

  lemma WorkKeeps(s: State, obj: nat, run: nat, move: WorkerMove)
    requires Inv(s)
    ensures Inv(Step(s, Work(obj, run, move)))
  {
    if obj < |s.endpoints| && run < |s.endpoints[obj].workers| {
      WorkedKeeps(s.endpoints[obj], run, move, InsideClose(s, obj));
      SetKeeps(s, obj, Worked(s.endpoints[obj], run, move));
    }
  }

  lemma StepKeepsInv(s: State, a: Action)
    requires Inv(s)
    ensures Inv(Step(s, a))
  {
    match a
    case Create(id) => CreateKeeps(s, a);
    case BeginStart(id) => BeginStartKeeps(s, id);
    case BeginStop(id, next) => BeginStopKeeps(s, id, next);
    case StartRegion(binds) => StartRegionKeeps(s, binds);
    case StopSucceeds => StopKeeps(s, a);
    case StopFails => StopKeeps(s, a);
    case ContextDone(obj, run) => ContextDoneKeeps(s, obj, run);
    case Work(obj, run, move) => WorkKeeps(s, obj, run, move);
    case EnterClose => EnterCloseKeeps(s);
    case LeaveClose => LeaveCloseKeeps(s);
  }

  lemma {:induction false} InvAlways(actions: seq<Action>)
    ensures Inv(Exec(actions))
    decreases |actions|
  {
    if actions != [] {
      InvAlways(actions[..|actions| - 1]);
      StepKeepsInv(Exec(actions[..|actions| - 1]), actions[|actions| - 1]);
    }
  }

  // ------------------------------------------------------------ safety

  /** The parties inside a native call on the stack of object `obj`. */
  datatype User = PacketWorker(run: nat) | AdapterCall

  ghost predicate UsesNative(s: State, obj: nat, u: User) {
    && obj < |s.endpoints|
    && match u
       case PacketWorker(r) => r < |s.endpoints[obj].workers| && s.endpoints[obj].workers[r].phase == InNative
       case AdapterCall => InsideClose(s, obj)
  }

  ghost predicate Alive(s: State, obj: nat, r: nat) {
    obj < |s.endpoints| && r < |s.endpoints[obj].workers| && s.endpoints[obj].workers[r].phase != Exited
  }

  /** In every interleaving: one live worker per endpoint, one native caller per
      stack, none once the stack is closed, and any recorded failure belongs to
      the latest run. */
  lemma EveryRunIsSafe(actions: seq<Action>, obj: nat)
    requires obj < |Exec(actions).endpoints|
    ensures var s := Exec(actions);
            && (forall q, r :: Alive(s, obj, q) && Alive(s, obj, r) ==> q == r)
            && (forall u, v :: UsesNative(s, obj, u) && UsesNative(s, obj, v) ==> u == v)
            && (s.endpoints[obj].stackClosed ==>
                  (forall u :: !UsesNative(s, obj, u)) && (forall r :: !Alive(s, obj, r)))
            && (s.endpoints[obj].failure.Some? ==> s.endpoints[obj].failure.value + 1 == |s.endpoints[obj].workers|)
  {
    InvAlways(actions);
    var s := Exec(actions);
    assert EndpointOk(s.endpoints[obj], InsideClose(s, obj));
  }

  /** A worker that comes to publish is the latest run and finds the mutex free; the
      endpoint then counts as stopped, and records a failure, this worker's own, exactly
      when the worker failed before its context was done. */
  lemma PublishingWorkerIsCurrent(actions: seq<Action>, obj: nat, r: nat)
    requires Alive(Exec(actions), obj, r) && Exec(actions).endpoints[obj].workers[r].phase == Publishing
    ensures Publishes(Exec(actions), obj, r)
  {
    InvAlways(actions);
    PublisherIsLast(Exec(actions), obj, r);
  }

  ghost predicate Publishes(s: State, obj: nat, r: nat)
    requires Alive(s, obj, r)
  {
    var e, w := s.endpoints[obj], s.endpoints[obj].workers[r];
    var after := Step(s, Work(obj, r, Publish)).endpoints[obj];
    && r + 1 == |e.workers| && e.running && e.mutex == Free
    && !after.running
    && after.failure == (if w.failed && !w.cancelled then Some(r) else None)
    && after.workers[..r] == e.workers[..r] && after.workers[r..] == [w.(phase := Signalling)]
  }

  lemma PublisherIsLast(s: State, obj: nat, r: nat)
    requires Inv(s) && Alive(s, obj, r) && s.endpoints[obj].workers[r].phase == Publishing
    ensures Publishes(s, obj, r)
  {
    assert EndpointOk(s.endpoints[obj], InsideClose(s, obj));
  }

  lemma StepKeepsObjects(s: State, a: Action, obj: nat)
    requires Inv(s) && obj < |s.endpoints|
    ensures obj < |Step(s, a).endpoints|
    ensures s.endpoints[obj].stackClosed ==> Step(s, a).endpoints[obj].stackClosed
  {
    if a.Work? {
      WorkKeepsObjects(s, a.obj, a.run, a.move, obj);
    } else if a.StartRegion? {
      StartRegionKeepsObjects(s, a.binds, obj);
    }
  }

  lemma WorkKeepsObjects(s: State, o: nat, run: nat, move: WorkerMove, obj: nat)
    requires Inv(s) && obj < |s.endpoints|
    ensures obj < |Step(s, Work(o, run, move)).endpoints|
    ensures s.endpoints[obj].stackClosed ==> Step(s, Work(o, run, move)).endpoints[obj].stackClosed
  {
    if o < |s.endpoints| && run < |s.endpoints[o].workers| {
      assert EndpointOk(s.endpoints[o], InsideClose(s, o));
      WorkedKeeps(s.endpoints[o], run, move, InsideClose(s, o));
    }
  }

  lemma StartRegionKeepsObjects(s: State, binds: bool, obj: nat)
    requires Inv(s) && obj < |s.endpoints|
    ensures obj < |Step(s, StartRegion(binds)).endpoints|
    ensures s.endpoints[obj].stackClosed ==> Step(s, StartRegion(binds)).endpoints[obj].stackClosed
  {
    assert EndpointOk(s.endpoints[obj], InsideClose(s, obj));
  }

  ghost predicate IsClosed(s: State, obj: nat) {
    obj < |s.endpoints| && s.endpoints[obj].stackClosed
  }

  lemma ExecNext(actions: seq<Action>, a: Action)
    ensures Exec(actions + [a]) == Step(Exec(actions), a)
  {
    assert (actions + [a])[..|actions|] == actions;
  }

  lemma {:induction false} ClosedStackStaysClosed(actions: seq<Action>, more: seq<Action>, obj: nat)
    requires IsClosed(Exec(actions), obj)
    ensures IsClosed(Exec(actions + more), obj)
    decreases |more|
  {
    if more == [] {
      assert actions + more == actions;
    } else {
      var front, last := more[..|more| - 1], more[|more| - 1];
      ClosedStackStaysClosed(actions, front, obj);
      assert actions + more == actions + front + [last];
      ExecNext(actions + front, last);
      InvAlways(actions + front);
      StepKeepsObjects(Exec(actions + front), last, obj);
    }
  }

  /** After `Delete` closed a stack, no continuation ever enters it again. */
  lemma ClosedStackStaysSilent(actions: seq<Action>, more: seq<Action>, obj: nat)
    requires IsClosed(Exec(actions), obj)
    ensures IsClosed(Exec(actions + more), obj)
    ensures forall u :: !UsesNative(Exec(actions + more), obj, u)
  {
    ClosedStackStaysClosed(actions, more, obj);
    EveryRunIsSafe(actions + more, obj);
  }

  // ------------------------------------------------------------ stopping

  /** How many steps a cancelled worker can still take. */
  function Effort(phase: Phase): nat {
    match phase
    case Reading => 7
    case InNative => 6
    case Writing => 5
    case Checking => 4
    case ClosingPort => 3
    case Publishing => 2
    case Signalling => 1
    case Exited => 0
  }

  ghost predicate HasCancelled(s: State, obj: nat, run: nat) {
    obj < |s.endpoints| && run < |s.endpoints[obj].workers| && s.endpoints[obj].workers[run].cancelled
  }

  function PhaseOf(s: State, obj: nat, run: nat): Phase
    requires obj < |s.endpoints| && run < |s.endpoints[obj].workers|
  {
    s.endpoints[obj].workers[run].phase
  }

  /** Whether `a` takes worker `run` of object `obj` a step further. */
  predicate Moves(s: State, a: Action, obj: nat, run: nat) {
    && a.Work? && a.obj == obj < |s.endpoints| && a.run == run < |s.endpoints[obj].workers|
    && Worked(s.endpoints[obj], run, a.move) != s.endpoints[obj]
  }

  lemma CancelledMoveTakesEffort(e: Endpoint, r: nat, move: WorkerMove)
    requires r < |e.workers| && e.workers[r].cancelled && Worked(e, r, move) != e
    ensures r < |Worked(e, r, move).workers| && Worked(e, r, move).workers[r].cancelled
    ensures Effort(Worked(e, r, move).workers[r].phase) < Effort(e.workers[r].phase)
  {
  }

  lemma StepKeepsCancelled(s: State, a: Action, obj: nat, run: nat)
    requires HasCancelled(s, obj, run)
    ensures HasCancelled(Step(s, a), obj, run)
    ensures Effort(PhaseOf(Step(s, a), obj, run)) + (if Moves(s, a, obj, run) then 1 else 0)
            <= Effort(PhaseOf(s, obj, run))
  {
    if Moves(s, a, obj, run) {
      CancelledMoveTakesEffort(s.endpoints[obj], run, a.move);
    }
  }

  /** How often `more`, carried out from `s`, moves the worker. */
  function CountMoves(s: State, more: seq<Action>, obj: nat, run: nat): nat
    decreases |more|
  {
    if more == [] then 0
    else (if Moves(s, more[0], obj, run) then 1 else 0) + CountMoves(Step(s, more[0]), more[1..], obj, run)
  }

  lemma {:induction false} CancelledMovesAreBounded(s: State, more: seq<Action>, obj: nat, run: nat)
    requires HasCancelled(s, obj, run)
    ensures CountMoves(s, more, obj, run) <= Effort(PhaseOf(s, obj, run))
    decreases |more|
  {
    if more != [] {
      StepKeepsCancelled(s, more[0], obj, run);
      CancelledMovesAreBounded(Step(s, more[0]), more[1..], obj, run);
    }
  }

  /** A call that stops an endpoint has cancelled its latest worker. */
  ghost predicate StopCancels(s: State) {
    s.call.Stopping? && OnNode(s, s.call.id) ==>
      var e := s.endpoints[s.nodes[s.call.id]];
      e.workers == [] || e.workers[|e.workers| - 1].cancelled
  }

  /** While a call waits, no worker is added to any endpoint. */
  lemma WaitingAddsNothing(s: State, a: Action, obj: nat)
    requires s.call.Stopping? && Step(s, a).call.Stopping? && obj < |s.endpoints|
    ensures Step(s, a).call == s.call && Step(s, a).nodes == s.nodes && |Step(s, a).endpoints| == |s.endpoints|
    ensures |Step(s, a).endpoints[obj].workers| == |s.endpoints[obj].workers|
  {
  }

  lemma BeginStopCancels(s: State, id: string, next: Next)
    requires !s.call.Stopping?
    ensures StopCancels(Step(s, BeginStop(id, next)))
  {
  }

  lemma OnlyBeginStopWaits(s: State, a: Action)
    requires !s.call.Stopping? && !a.BeginStop?
    ensures !Step(s, a).call.Stopping?
  {
  }

  lemma StepKeepsStopCancels(s: State, a: Action)
    requires Inv(s) && StopCancels(s)
    ensures StopCancels(Step(s, a))
  {
    if !s.call.Stopping? {
      if a.BeginStop? {
        BeginStopCancels(s, a.id, a.next);
      } else {
        OnlyBeginStopWaits(s, a);
      }
    } else if Step(s, a).call.Stopping? {
      var obj := s.nodes[s.call.id];
      WaitingAddsNothing(s, a, obj);
      if s.endpoints[obj].workers != [] {
        StepKeepsCancelled(s, a, obj, |s.endpoints[obj].workers| - 1);
      }
    }
  }

  lemma {:induction false} StopAlwaysCancels(actions: seq<Action>)
    ensures StopCancels(Exec(actions))
    decreases |actions|
  {
    if actions != [] {
      var front, last := actions[..|actions| - 1], actions[|actions| - 1];
      StopAlwaysCancels(front);
      InvAlways(front);
      StepKeepsStopCancels(Exec(front), last);
    }
  }

  /** A worker that has not exited can move: the mutex it may need is free or its
      own. */
  lemma LiveWorkerCanMove(e: Endpoint, r: nat) returns (move: WorkerMove)
    requires EndpointOk(e, false) && !Joined(e) && r == |e.workers| - 1
    ensures Worked(e, r, move) != e
  {
    move := match e.workers[r].phase
      case Checking => CheckContext
      case Reading => ReadFails
      case InNative => LeaveNative(false)
      case Writing => FramesWritten(false)
      case ClosingPort => PortClosed(false)
      case Publishing => Publish
      case Signalling => SignalDone
      case Exited => SignalDone;
    assert Worked(e, r, move).workers[r].phase != e.workers[r].phase;
  }

  /** The worker that the call in progress waits for. */
  ghost predicate WaitsFor(s: State, obj: nat, run: nat) {
    && s.call.Stopping? && OnNode(s, s.call.id) && obj == s.nodes[s.call.id]
    && !Joined(s.endpoints[obj]) && run == |s.endpoints[obj].workers| - 1
  }

  /** In every run, a call that waits for a worker is not stuck: the worker can move,
      and whatever else happens it moves at most seven times. */
  lemma StopIsNotStuck(actions: seq<Action>, more: seq<Action>, obj: nat, run: nat)
    requires WaitsFor(Exec(actions), obj, run)
    ensures CountMoves(Exec(actions), more, obj, run) <= 7
    ensures exists a :: Moves(Exec(actions), a, obj, run)
  {
    InvAlways(actions);
    StopAlwaysCancels(actions);
    WaitIsBounded(Exec(actions), more, obj, run);
  }

  lemma WaitIsBounded(s: State, more: seq<Action>, obj: nat, run: nat)
    requires Inv(s) && StopCancels(s) && WaitsFor(s, obj, run)
    ensures CountMoves(s, more, obj, run) <= 7 && exists a :: Moves(s, a, obj, run)
  {
    CancelledMovesAreBounded(s, more, obj, run);
    assert EndpointOk(s.endpoints[obj], InsideClose(s, obj));
    var move := LiveWorkerCanMove(s.endpoints[obj], run);
    assert Moves(s, Work(obj, run, move), obj, run);
  }

  /** Once there is nothing to wait for, `Stop` succeeds. */
  lemma JoinedStopSucceeds(actions: seq<Action>)
    requires Exec(actions).call.Stopping? && forall obj, run :: !WaitsFor(Exec(actions), obj, run)
    ensures var s, t := Exec(actions), Step(Exec(actions), StopSucceeds);
            && t == s.(call := t.call)
            && match s.call.next
               case Return => t.call == Idle
               case StartAgain => t.call == Starting(s.call.id)
               case CloseStack => t.call == Deleting(s.call.id)
  {
    InvAlways(actions);
    var s := Exec(actions);
    var obj := s.nodes[s.call.id];
    assert Joined(s.endpoints[obj]) || WaitsFor(s, obj, |s.endpoints[obj].workers| - 1);
  }

  // ------------------------------------------------------------ what a call comes to

  /** No endpoint has been closed, and no call is on its way to close one. */
  ghost predicate NoneDeleted(s: State) {
    && (forall e :: e in s.endpoints ==> !e.stackClosed)
    && !s.call.Deleting? && !s.call.InClose?
    && (s.call.Stopping? ==> s.call.next != CloseStack)
  }

  lemma StepDeletesNothing(s: State, a: Action)
    requires Inv(s) && NoneDeleted(s) && (a.BeginStop? ==> a.next != CloseStack)
    ensures NoneDeleted(Step(s, a))
  {
    var t := Step(s, a);
    forall o: nat | o < |t.endpoints| ensures !t.endpoints[o].stackClosed {
      if o < |s.endpoints| {
        assert s.endpoints[o] in s.endpoints;
        if a.Work? && a.obj == o && a.run < |s.endpoints[o].workers| {
          WorkedKeeps(s.endpoints[o], a.run, a.move, InsideClose(s, o));
        }
      }
    }
  }

  /** As long as nothing is deleted, stops and restarts close no stack. */
  lemma {:induction false} OnlyDeleteCloses(actions: seq<Action>)
    requires forall a :: a in actions && a.BeginStop? ==> a.next != CloseStack
    ensures NoneDeleted(Exec(actions))
    decreases |actions|
  {
    if actions != [] {
      var front, last := actions[..|actions| - 1], actions[|actions| - 1];
      assert last in actions && forall a :: a in front ==> a in actions;
      OnlyDeleteCloses(front);
      InvAlways(front);
      StepDeletesNothing(Exec(front), last);
    }
  }

  /** Node `id` is object `obj`, which is open, and is not being deleted. */
  ghost predicate Keeps(s: State, id: string, obj: nat) {
    && id in s.nodes && s.nodes[id] == obj
    && s.call != Deleting(id) && s.call != InClose(id) && s.call != Stopping(id, CloseStack)
  }

  lemma StepKeepsNode(s: State, a: Action, id: string, obj: nat)
    requires Keeps(s, id, obj) && a != BeginStop(id, CloseStack)
    ensures Keeps(Step(s, a), id, obj)
  {
  }

  /** A node stays what it is until it is deleted itself, whatever else is. */
  lemma {:induction false} NodeStaysUntilDeleted(actions: seq<Action>, more: seq<Action>, id: string, obj: nat)
    requires Keeps(Exec(actions), id, obj) && BeginStop(id, CloseStack) !in more
    ensures Keeps(Exec(actions + more), id, obj)
    ensures obj < |Exec(actions + more).endpoints| && !Exec(actions + more).endpoints[obj].stackClosed
    decreases |more|
  {
    InvAlways(actions + more);
    if more == [] {
      assert actions + more == actions;
    } else {
      var front, last := more[..|more| - 1], more[|more| - 1];
      NodeStaysUntilDeleted(actions, front, id, obj);
      assert actions + more == actions + front + [last];
      ExecNext(actions + front, last);
      StepKeepsNode(Exec(actions + front), last, id, obj);
    }
  }

  /** A call begun with `BeginStop(id, next)` is still on its way: it waits for the
      worker of object `obj`, or has gone on to what `next` says. */
  ghost predicate Underway(s: State, nodes: map<string, nat>, id: string, next: Next, runs: nat) {
    && s.nodes == nodes && OnNode(s, id)
    && |s.endpoints[nodes[id]].workers| == runs
    && (s.call == Stopping(id, next) || (Joined(s.endpoints[nodes[id]]) && GoesOn(s.call, id, next)))
  }

  predicate GoesOn(call: Call, id: string, next: Next) {
    match next
    case Return => false
    case StartAgain => call == Starting(id)
    case CloseStack => call == Deleting(id) || call == InClose(id)
  }

  /** How such a call ends, by its last step `a`: `Stop` leaves the open endpoint
      without a live worker, `Restart` with a new one if the port binds, and `Delete`
      closes the stack and forgets the node. */
  ghost predicate EndsAs(s: State, nodes: map<string, nat>, id: string, next: Next, runs: nat, a: Action)
    requires id in nodes
  {
    && s.call == Idle && nodes[id] < |s.endpoints|
    && IsLastStep(a, next)
    && var e := s.endpoints[nodes[id]];
       && s.nodes == (if next == CloseStack then nodes - {id} else nodes)
       && e.stackClosed == (next == CloseStack)
       && if next == StartAgain && a == StartRegion(true)
          then |e.workers| == runs + 1 && e.workers[runs] == NEW_WORKER && e.running && e.failure == None
          else |e.workers| == runs && Joined(e) && !e.running
  }

  /** A change of one endpoint that keeps its workers and stays joined. */
  lemma SetStaysUnderway(s: State, obj: nat, e: Endpoint, nodes: map<string, nat>, id: string, next: Next, runs: nat)
    requires Underway(s, nodes, id, next, runs) && obj < |s.endpoints|
    requires |e.workers| == |s.endpoints[obj].workers| && (Joined(s.endpoints[obj]) ==> Joined(e))
    ensures Underway(Set(s, obj, e), nodes, id, next, runs)
  {
  }

  /** What each kind of call ends with. */
  ghost predicate IsLastStep(a: Action, next: Next) {
    match next
    case Return => a == StopSucceeds
    case StartAgain => a.StartRegion?
    case CloseStack => a == LeaveClose
  }

  lemma ContextStaysUnderway(s: State, obj: nat, run: nat, nodes: map<string, nat>, id: string, next: Next, runs: nat)
    requires Inv(s) && Underway(s, nodes, id, next, runs)
    ensures Underway(Step(s, ContextDone(obj, run)), nodes, id, next, runs)
  {
    if obj < |s.endpoints| {
      CancelledKeeps(s.endpoints[obj], run, InsideClose(s, obj));
      SetStaysUnderway(s, obj, Cancelled(s.endpoints[obj], run), nodes, id, next, runs);
    }
  }

  lemma WorkStaysUnderway(s: State, obj: nat, run: nat, move: WorkerMove,
                          nodes: map<string, nat>, id: string, next: Next, runs: nat)
    requires Inv(s) && Underway(s, nodes, id, next, runs)
    ensures Underway(Step(s, Work(obj, run, move)), nodes, id, next, runs)
  {
    if obj < |s.endpoints| && run < |s.endpoints[obj].workers| {
      WorkedKeeps(s.endpoints[obj], run, move, InsideClose(s, obj));
      FailureIsNoted(s.endpoints[obj], run, move);
      SetStaysUnderway(s, obj, Worked(s.endpoints[obj], run, move), nodes, id, next, runs);
    }
  }

  lemma CallStaysUnderway(s: State, a: Action, nodes: map<string, nat>, id: string, next: Next, runs: nat)
    requires Inv(s) && Underway(s, nodes, id, next, runs) && a != StopFails && !a.Work? && !a.ContextDone?
    ensures if Step(s, a).call == Idle then EndsAs(Step(s, a), nodes, id, next, runs, a)
            else Underway(Step(s, a), nodes, id, next, runs)
  {
    if a.StartRegion? {
      StartStaysUnderway(s, a.binds, nodes, id, next, runs);
    } else if a.EnterClose? || a.LeaveClose? {
      CloseStaysUnderway(s, a, nodes, id, next, runs);
    } else if a.StopSucceeds? {
      assert EndpointOk(s.endpoints[nodes[id]], InsideClose(s, nodes[id]));
    } else {
      assert Step(s, a) == s;
    }
  }

  lemma StartStaysUnderway(s: State, binds: bool, nodes: map<string, nat>, id: string, next: Next, runs: nat)
    requires Inv(s) && Underway(s, nodes, id, next, runs)
    ensures var t := Step(s, StartRegion(binds));
            if t.call == Idle then EndsAs(t, nodes, id, next, runs, StartRegion(binds))
            else Underway(t, nodes, id, next, runs)
  {
    assert EndpointOk(s.endpoints[nodes[id]], InsideClose(s, nodes[id]));
  }

  lemma CloseStaysUnderway(s: State, a: Action, nodes: map<string, nat>, id: string, next: Next, runs: nat)
    requires Inv(s) && Underway(s, nodes, id, next, runs) && (a.EnterClose? || a.LeaveClose?)
    ensures if Step(s, a).call == Idle then EndsAs(Step(s, a), nodes, id, next, runs, a)
            else Underway(Step(s, a), nodes, id, next, runs)
  {
    assert EndpointOk(s.endpoints[nodes[id]], InsideClose(s, nodes[id]));
  }

  /** How a call begun in `s` stands in `t`, after the steps `more`. */
  ghost predicate Fares(s: State, t: State, id: string, next: Next, more: seq<Action>) {
    && OnNode(s, id)
    && var runs := |s.endpoints[s.nodes[id]].workers|;
       if t.call == Idle then more != [] && EndsAs(t, s.nodes, id, next, runs, more[|more| - 1])
       else Underway(t, s.nodes, id, next, runs)
  }

  lemma FaresNext(s: State, t: State, id: string, next: Next, more: seq<Action>, a: Action)
    requires Fares(s, t, id, next, more) && Inv(t) && t.call != Idle && a != StopFails
    ensures Fares(s, Step(t, a), id, next, more + [a])
  {
    var runs := |s.endpoints[s.nodes[id]].workers|;
    if a.Work? {
      WorkStaysUnderway(t, a.obj, a.run, a.move, s.nodes, id, next, runs);
    } else if a.ContextDone? {
      ContextStaysUnderway(t, a.obj, a.run, s.nodes, id, next, runs);
    } else {
      CallStaysUnderway(t, a, s.nodes, id, next, runs);
    }
  }

  lemma FaresFirst(s: State, id: string, next: Next)
    requires s.call == Idle && Step(s, BeginStop(id, next)).call == Stopping(id, next)
    ensures Fares(s, Step(s, BeginStop(id, next)), id, next, [])
  {
  }

  /** From the end of `begun` on, the call in progress lasts at least until the last
      step of `more`. */
  ghost predicate BusyThrough(begun: seq<Action>, more: seq<Action>) {
    forall k: nat :: BusyAt(begun, more, k)
  }

  ghost predicate BusyAt(begun: seq<Action>, more: seq<Action>, k: nat) {
    k < |more| ==> Exec(begun + more[..k]).call != Idle
  }

  lemma BusyBefore(begun: seq<Action>, more: seq<Action>)
    requires BusyThrough(begun, more) && more != []
    ensures BusyThrough(begun, more[..|more| - 1]) && Exec(begun + more[..|more| - 1]).call != Idle
  {
    var front := more[..|more| - 1];
    assert BusyAt(begun, more, |front|);
    forall k: nat ensures BusyAt(begun, front, k) {
      assert BusyAt(begun, more, k);
      if k < |front| {
        assert front[..k] == more[..k];
      }
    }
  }

  lemma Regroup(a: seq<Action>, b: seq<Action>, c: seq<Action>)
    ensures a + b + c == a + (b + c)
  {
  }

  lemma FaresStep(s: State, begun: seq<Action>, id: string, next: Next, more: seq<Action>, a: Action)
    requires Fares(s, Exec(begun + more), id, next, more) && Exec(begun + more).call != Idle && a != StopFails
    ensures Fares(s, Exec(begun + (more + [a])), id, next, more + [a])
  {
    Regroup(begun, more, [a]);
    ExecNext(begun + more, a);
    InvAlways(begun + more);
    FaresNext(s, Exec(begun + more), id, next, more, a);
  }

  lemma {:induction false} FaresThrough(s: State, begun: seq<Action>, id: string, next: Next, more: seq<Action>)
    requires Fares(s, Exec(begun), id, next, []) && BusyThrough(begun, more) && StopFails !in more
    ensures Fares(s, Exec(begun + more), id, next, more)
    decreases |more|
  {
    if more == [] {
      assert begun + more == begun;
    } else {
      var front, last := more[..|more| - 1], more[|more| - 1];
      assert more == front + [last];
      BusyBefore(begun, more);
      FaresThrough(s, begun, id, next, front);
      FaresStep(s, begun, id, next, front, last);
    }
  }

  /** Every call that stops an endpoint and is not given up ends as its kind says,
      whatever the workers do meanwhile. */
  lemma CallEndsAsItsKind(actions: seq<Action>, id: string, next: Next, more: seq<Action>)
    requires Exec(actions).call == Idle && Exec(actions + [BeginStop(id, next)]).call == Stopping(id, next)
    requires BusyThrough(actions + [BeginStop(id, next)], more) && StopFails !in more
    ensures Fares(Exec(actions), Exec(actions + [BeginStop(id, next)] + more), id, next, more)
  {
    ExecNext(actions, BeginStop(id, next));
    FaresFirst(Exec(actions), id, next);
    FaresThrough(Exec(actions), actions + [BeginStop(id, next)], id, next, more);
  }

  /** `Start` in a state any run can reach: a running endpoint stays as it is, one whose
      worker is still leaving is left alone, and otherwise a worker is added if the port
      binds. */
  lemma StartAddsOneWorker(actions: seq<Action>, id: string, binds: bool)
    requires Exec(actions).call == Starting(id) && OnNode(Exec(actions), id)
    requires Exec(actions).endpoints[Exec(actions).nodes[id]].mutex == Free
    ensures var s, t := Exec(actions), Step(Exec(actions), StartRegion(binds));
            var obj := s.nodes[id];
            var e := s.endpoints[obj];
            && t.call == Idle && t.nodes == s.nodes && |t.endpoints| == |s.endpoints|
            && (forall o: nat :: o < |s.endpoints| && o != obj ==> t.endpoints[o] == s.endpoints[o])
            && (binds && (forall r :: !Alive(s, obj, r)) <==> t.endpoints[obj].workers == e.workers + [NEW_WORKER])
            && (t.endpoints[obj].workers == e.workers + [NEW_WORKER] || t.endpoints[obj] == e)
  {
    InvAlways(actions);
    StartRegionAdds(Exec(actions), id, binds);
  }

  lemma StartRegionAdds(s: State, id: string, binds: bool)
    requires Inv(s) && s.call == Starting(id) && s.endpoints[s.nodes[id]].mutex == Free
    ensures var t, obj := Step(s, StartRegion(binds)), s.nodes[id];
            var e := s.endpoints[obj];
            && t.call == Idle && t.nodes == s.nodes && |t.endpoints| == |s.endpoints|
            && (forall o: nat :: o < |s.endpoints| && o != obj ==> t.endpoints[o] == s.endpoints[o])
            && (binds && (forall r :: !Alive(s, obj, r)) <==> t.endpoints[obj].workers == e.workers + [NEW_WORKER])
            && (t.endpoints[obj].workers == e.workers + [NEW_WORKER] || t.endpoints[obj] == e)
  {
    var obj := s.nodes[id];
    var e := s.endpoints[obj];
    assert EndpointOk(e, InsideClose(s, obj));
    JoinedIsQuiet(s, obj);
    StartedAdds(e, binds);
  }

  lemma StartedAdds(e: Endpoint, binds: bool)
    requires EndpointOk(e, false)
    ensures Started(e, binds).workers == e.workers + [NEW_WORKER] <==> binds && Joined(e)
    ensures Started(e, binds).workers == e.workers + [NEW_WORKER] || Started(e, binds) == e
  {
    assert |e.workers + [NEW_WORKER]| == |e.workers| + 1;
  }

  lemma JoinedIsQuiet(s: State, obj: nat)
    requires obj < |s.endpoints| && EndpointOk(s.endpoints[obj], InsideClose(s, obj))
    ensures Joined(s.endpoints[obj]) <==> forall r :: !Alive(s, obj, r)
  {
    var e := s.endpoints[obj];
    if !Joined(e) {
      assert Alive(s, obj, |e.workers| - 1);
    }
  }

  // ------------------------------------------------------------ what a worker does

  /** Inside the receive loop. */
  predicate Serving(phase: Phase) {
    phase == Checking || phase == Reading || phase == InNative || phase == Writing
  }

  /** A worker leaves its loop when its context is done or it failed, and for no
      other reason. */
  ghost predicate WorkerOk(w: Worker) {
    && (w.failed ==> !Serving(w.phase))
    && (!Serving(w.phase) ==> w.failed || w.cancelled)
  }

  ghost predicate WorkersOk(e: Endpoint) {
    forall w :: w in e.workers ==> WorkerOk(w)
  }

  ghost predicate AllOk(s: State) {
    forall e :: e in s.endpoints ==> WorkersOk(e)
  }

  lemma WorkedKeepsWorkers(e: Endpoint, r: nat, move: WorkerMove)
    requires r < |e.workers| && WorkersOk(e)
    ensures WorkersOk(Worked(e, r, move))
  {
    var after := Worked(e, r, move);
    assert WorkerOk(e.workers[r]) && WorkerOk(after.workers[r]);
    forall q: nat | q < |after.workers| && q != r ensures WorkerOk(after.workers[q]) {
      assert after.workers[q] == e.workers[q];
    }
  }

  lemma CancelledKeepsWorkers(e: Endpoint, r: nat)
    requires WorkersOk(e)
    ensures WorkersOk(Cancelled(e, r))
  {
    var after := Cancelled(e, r);
    forall q: nat | q < |after.workers| ensures WorkerOk(after.workers[q]) {
      assert WorkerOk(e.workers[q]);
    }
  }

  /** A step changes an endpoint's workers in one of these ways only. */
  lemma StepOnOne(s: State, a: Action, obj: nat)
    requires obj < |Step(s, a).endpoints|
    ensures obj >= |s.endpoints| ==> Step(s, a).endpoints[obj] == NEW_ENDPOINT
    ensures obj < |s.endpoints| ==>
              var e, after := s.endpoints[obj], Step(s, a).endpoints[obj];
              || after.workers == e.workers
              || after.workers == e.workers + [NEW_WORKER]
              || (exists r :: after == Cancelled(e, r))
              || (a.Work? && a.run < |e.workers| && after == Worked(e, a.run, a.move))
  {
    if obj < |s.endpoints| && a.ContextDone? && a.obj == obj {
      assert Step(s, a).endpoints[obj] == Cancelled(s.endpoints[obj], a.run);
    }
  }

  lemma StepKeepsWorkers(s: State, a: Action)
    requires AllOk(s)
    ensures AllOk(Step(s, a))
  {
    var t := Step(s, a);
    forall o: nat | o < |t.endpoints| ensures WorkersOk(t.endpoints[o]) {
      StepOnOne(s, a, o);
      if o < |s.endpoints| {
        var e, after := s.endpoints[o], t.endpoints[o];
        assert WorkersOk(e);
        if after.workers != e.workers && after.workers != e.workers + [NEW_WORKER] {
          if a.Work? && a.run < |e.workers| && after == Worked(e, a.run, a.move) {
            WorkedKeepsWorkers(e, a.run, a.move);
          } else {
            var r :| after == Cancelled(e, r);
            CancelledKeepsWorkers(e, r);
          }
        }
      }
    }
  }

  lemma {:induction false} WorkersAlwaysOk(actions: seq<Action>)
    ensures AllOk(Exec(actions))
    decreases |actions|
  {
    if actions != [] {
      WorkersAlwaysOk(actions[..|actions| - 1]);
      StepKeepsWorkers(Exec(actions[..|actions| - 1]), actions[|actions| - 1]);
    }
  }

  /** A step that fails in the phase it belongs to. */
  predicate FailsIn(phase: Phase, move: WorkerMove) {
    || (phase == Reading && move == ReadFails)
    || (phase == InNative && move == LeaveNative(true))
    || (phase == Writing && move == FramesWritten(true))
    || (phase == ClosingPort && move == PortClosed(true))
  }

  /** A worker has failed exactly when one of its own steps did. */
  lemma FailureIsNoted(e: Endpoint, r: nat, move: WorkerMove)
    requires r < |e.workers|
    ensures |Worked(e, r, move).workers| == |e.workers|
    ensures Worked(e, r, move).workers[r].failed <==> e.workers[r].failed || FailsIn(e.workers[r].phase, move)
  {
  }

  /** In every run a worker that has neither failed nor been cancelled is in its
      receive loop, and its endpoint counts as running. */
  lemma HealthyWorkerServes(actions: seq<Action>, obj: nat, r: nat)
    requires obj < |Exec(actions).endpoints| && r < |Exec(actions).endpoints[obj].workers|
    ensures var e := Exec(actions).endpoints[obj];
            !e.workers[r].failed && !e.workers[r].cancelled ==> Serving(e.workers[r].phase) && e.running
  {
    InvAlways(actions);
    WorkersAlwaysOk(actions);
    ServesIfOk(Exec(actions), obj, r);
  }

  lemma ServesIfOk(s: State, obj: nat, r: nat)
    requires Inv(s) && AllOk(s) && obj < |s.endpoints| && r < |s.endpoints[obj].workers|
    ensures var e := s.endpoints[obj];
            !e.workers[r].failed && !e.workers[r].cancelled ==> Serving(e.workers[r].phase) && e.running
  {
    var e := s.endpoints[obj];
    assert EndpointOk(e, InsideClose(s, obj)) && e in s.endpoints && e.workers[r] in e.workers;
    assert WorkerOk(e.workers[r]);
  }

  /** One frame: looked for, taken into the native stack under the mutex, its answers
      written without it, and back to the look at the context. */
  lemma FramePasses(e: Endpoint, r: nat)
    requires r < |e.workers| && e.workers[r] == NEW_WORKER && e.mutex == Free
    ensures var reading := Worked(e, r, CheckContext);
            |reading.workers| == |e.workers|
            && var inside := Worked(reading, r, ReceiveFrame);
               |inside.workers| == |e.workers| && inside.workers[r].phase == InNative && inside.mutex == ByWorker(r)
               && var writing := Worked(inside, r, LeaveNative(false));
                  |writing.workers| == |e.workers| && writing.workers[r].phase == Writing && writing.mutex == Free
                  && Worked(writing, r, FramesWritten(false)) == e
                  && Worked(reading, r, ReadNothing) == e
  {
    var reading := Worked(e, r, CheckContext);
    var writing := Worked(Worked(reading, r, ReceiveFrame), r, LeaveNative(false));
    assert Worked(writing, r, FramesWritten(false)).workers == e.workers;
    assert Worked(reading, r, ReadNothing).workers == e.workers;
  }
}
