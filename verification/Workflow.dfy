/** The CI workflow engine (`internal/ci/framework.go`): validation by a
    three-colour depth-first search, and the round-based scheduler. */
module Workflows {
  import opened Options

  datatype Step = Step(name: string, command: string, dependsOn: seq<string>, always: bool)

  datatype Workflow = Workflow(name: string, steps: seq<Step>, continueOnError: bool)

  datatype Defect =
    | MissingName
    | IncompleteStep
    | DuplicateStep(name: string)
    | UnknownDependency(name: string, dependency: string)
    | SelfDependency(name: string)
    | DependencyCycle(name: string)

  // ------------------------------------------------------------ what is valid

  ghost function Names(steps: seq<Step>): set<string> {
    set i | 0 <= i < |steps| :: steps[i].name
  }

  ghost predicate Named(steps: seq<Step>) {
    forall i :: 0 <= i < |steps| ==> steps[i].name != "" && steps[i].command != ""
  }

  ghost predicate Distinct(steps: seq<Step>) {
    forall i, j :: 0 <= i < j < |steps| ==> steps[i].name != steps[j].name
  }

  ghost predicate Known(steps: seq<Step>) {
    forall i, d :: 0 <= i < |steps| && d in steps[i].dependsOn ==> d in Names(steps)
  }

  /** Some step called `a` lists `b` among its dependencies. */
  ghost predicate DependsOn(steps: seq<Step>, a: string, b: string) {
    exists i :: 0 <= i < |steps| && steps[i].name == a && b in steps[i].dependsOn
  }

  ghost predicate Follows(steps: seq<Step>, walk: seq<string>, i: nat)
    requires i + 1 < |walk|
  {
    DependsOn(steps, walk[i], walk[i + 1])
  }

  ghost predicate IsWalk(steps: seq<Step>, walk: seq<string>) {
    forall i: nat {:trigger Follows(steps, walk, i)} :: i + 1 < |walk| ==> Follows(steps, walk, i)
  }

  ghost predicate IsCycle(steps: seq<Step>, walk: seq<string>) {
    |walk| >= 2 && walk[0] == walk[|walk| - 1] && IsWalk(steps, walk)
  }

  ghost predicate Acyclic(steps: seq<Step>) {
    forall walk :: !IsCycle(steps, walk)
  }

  ghost predicate Acceptable(w: Workflow) {
    w.name != "" && Named(w.steps) && Distinct(w.steps) && Known(w.steps) && Acyclic(w.steps)
  }

  // ------------------------------------------------------------ the search

  /** Every dependency of a listed name is listed before it. */
  ghost predicate DependenciesFirst(steps: seq<Step>, order: seq<string>) {
    forall i, d :: 0 <= i < |order| && DependsOn(steps, order[i], d) ==> d in order[..i]
  }

  ghost function FirstIndex(order: seq<string>, name: string): (k: nat)
    requires name in order
    ensures k < |order| && order[k] == name
    ensures forall j :: 0 <= j < k ==> order[j] != name
  {
    if order[0] == name then 0 else 1 + FirstIndex(order[1..], name)
  }

  lemma SuffixWalk(steps: seq<Step>, walk: seq<string>, k: nat)
    requires k <= |walk| && IsWalk(steps, walk)
    ensures IsWalk(steps, walk[k..])
  {
    forall i: nat | i + 1 < |walk[k..]| ensures Follows(steps, walk[k..], i) {
      assert Follows(steps, walk, k + i);
    }
  }

  lemma ExtendWalk(steps: seq<Step>, walk: seq<string>, next: string)
    requires walk != [] && IsWalk(steps, walk) && DependsOn(steps, walk[|walk| - 1], next)
    ensures IsWalk(steps, walk + [next])
  {
    var longer := walk + [next];
    forall i: nat | i + 1 < |longer| ensures Follows(steps, longer, i) {
      if i + 1 < |walk| {
        assert Follows(steps, walk, i);
      }
    }
  }

  lemma AppendFinished(steps: seq<Step>, order: seq<string>, name: string)
    requires DependenciesFirst(steps, order)
    requires forall d :: DependsOn(steps, name, d) ==> d in order
    ensures DependenciesFirst(steps, order + [name])
  {
    var longer := order + [name];
    forall i, d | 0 <= i < |longer| && DependsOn(steps, longer[i], d) ensures d in longer[..i] {
      assert longer[..i] == order[..i];
      if i == |order| {
        assert order[..i] == order;
      }
    }
  }

  /** Along a walk the first index in such an order strictly decreases. */
  lemma {:induction false} WalkDescends(steps: seq<Step>, order: seq<string>, walk: seq<string>)
    requires DependenciesFirst(steps, order)
    requires |walk| >= 2 && IsWalk(steps, walk) && walk[0] in order
    ensures walk[|walk| - 1] in order
    ensures FirstIndex(order, walk[|walk| - 1]) < FirstIndex(order, walk[0])
    decreases |walk|
  {
    var k := FirstIndex(order, walk[0]);
    assert Follows(steps, walk, 0);
    assert walk[1] in order[..k];
    var j :| 0 <= j < k && order[j] == walk[1];
    assert FirstIndex(order, walk[1]) <= j;
    if |walk| > 2 {
      SuffixWalk(steps, walk, 1);
      WalkDescends(steps, order, walk[1..]);
    }
  }

  lemma OrderExcludesCycles(steps: seq<Step>, order: seq<string>)
    requires DependenciesFirst(steps, order)
    requires forall name :: name in Names(steps) ==> name in order
    ensures Acyclic(steps)
  {
    forall walk ensures !IsCycle(steps, walk) {
      if IsCycle(steps, walk) {
        assert Follows(steps, walk, 0);
        WalkDescends(steps, order, walk);
      }
    }
  }

  /** The variables captured by the recursive `visit` closure. */
  class Search {
    const steps: seq<Step>
    const byName: map<string, Step>
    var visiting: set<string>
    var visited: set<string>
    ghost var finished: seq<string>

    ghost predicate Valid()
      reads this
    {
      && byName.Keys == Names(steps)
      && (forall a, b :: DependsOn(steps, a, b) <==> a in byName && b in byName[a].dependsOn)
      && Known(steps)
      && visiting <= byName.Keys
      && visited <= byName.Keys
      && visiting !! visited
      && visited == (set name | name in finished)
      && DependenciesFirst(steps, finished)
    }

    constructor (steps: seq<Step>, byName: map<string, Step>)
      requires byName.Keys == Names(steps) && Known(steps)
      requires forall a, b :: DependsOn(steps, a, b) <==> a in byName && b in byName[a].dependsOn
      ensures Valid() && visiting == {} && this.steps == steps && this.byName == byName
    {
      this.steps, this.byName := steps, byName;
      visiting, visited, finished := {}, {}, [];
    }

    /** `visit`: an error exhibits a cycle; success finishes `name` with its
        dependencies before it. `stack` is the chain of calls in progress. */
    method Visit(name: string, ghost stack: seq<string>) returns (err: Option<string>, ghost cycle: seq<string>)
      requires Valid() && name in byName
      requires visiting == (set n | n in stack) && IsWalk(steps, stack + [name])
      modifies this
      ensures Valid()
      ensures err.None? ==> visiting == old(visiting) && old(visited) <= visited && name in visited
      ensures err.Some? ==> IsCycle(steps, cycle)
      decreases byName.Keys - visiting
    {
      cycle := [];
      if name in visiting {
        ghost var k :| 0 <= k < |stack| && stack[k] == name;
        cycle := (stack + [name])[k..];
        SuffixWalk(steps, stack + [name], k);
        return Some(name), cycle;
      }
      if name in visited {
        return None, cycle;
      }
      visiting := visiting + {name};
      var dependencies := byName[name].dependsOn;
      for i := 0 to |dependencies|
        invariant Valid() && visiting == old(visiting) + {name} && old(visited) <= visited
        invariant forall j :: 0 <= j < i ==> dependencies[j] in visited
      {
        assert DependsOn(steps, name, dependencies[i]);
        ExtendWalk(steps, stack + [name], dependencies[i]);
        err, cycle := Visit(dependencies[i], stack + [name]);
        if err.Some? {
          return;
        }
      }
      AppendFinished(steps, finished, name);
      visiting := visiting - {name};
      visited := visited + {name};
      finished := finished + [name];
      err := None;
    }
  }

  /** The first two loops of `ValidateWorkflow`. */
  method CheckNames(steps: seq<Step>) returns (err: Option<Defect>, names: set<string>)
    ensures err.None? <==> Named(steps) && Distinct(steps)
    ensures err.None? ==> names == Names(steps)
    ensures err.Some? ==> err.value.IncompleteStep? || err.value.DuplicateStep?
  {
    names := {};
    for i := 0 to |steps|
      invariant names == Names(steps[..i])
      invariant forall j :: 0 <= j < i ==> steps[j].name != "" && steps[j].command != ""
      invariant forall j, k :: 0 <= j < k < i ==> steps[j].name != steps[k].name
    {
      var step := steps[i];
      if step.name == "" || step.command == "" {
        return Some(IncompleteStep), names;
      }
      if step.name in names {
        return Some(DuplicateStep(step.name)), names;
      }
      assert Names(steps[..i + 1]) == Names(steps[..i]) + {step.name} by {
        assert steps[..i + 1][i] == step;
        assert forall j :: 0 <= j < i ==> steps[..i + 1][j] == steps[..i][j];
      }
      forall j | 0 <= j < i ensures steps[j].name != step.name {
        assert steps[..i][j].name in Names(steps[..i]);
      }
      names := names + {step.name};
    }
    assert steps[..|steps|] == steps;
    err := None;
  }

  ghost predicate DependenciesNamed(step: Step, names: set<string>) {
    forall d :: d in step.dependsOn ==> d in names && d != step.name
  }

  method CheckDependencies(steps: seq<Step>, names: set<string>) returns (err: Option<Defect>)
    requires names == Names(steps)
    ensures err.None? ==> Known(steps)
    ensures err.None? ==> forall i :: 0 <= i < |steps| ==> steps[i].name !in steps[i].dependsOn
    ensures err.Some? ==> !Known(steps) || !Acyclic(steps)
    ensures err.Some? ==> err.value.UnknownDependency? || err.value.SelfDependency?
  {
    for i := 0 to |steps|
      invariant forall k :: 0 <= k < i ==> DependenciesNamed(steps[k], names)
    {
      var step := steps[i];
      for j := 0 to |step.dependsOn|
        invariant forall k :: 0 <= k < j ==> step.dependsOn[k] in names && step.dependsOn[k] != step.name
      {
        var dependency := step.dependsOn[j];
        if dependency !in names {
          assert !Known(steps) by { assert dependency in steps[i].dependsOn; }
          return Some(UnknownDependency(step.name, dependency));
        }
        if dependency == step.name {
          assert !Acyclic(steps) by {
            assert DependsOn(steps, step.name, step.name);
            assert IsCycle(steps, [step.name, step.name]);
          }
          return Some(SelfDependency(step.name));
        }
      }
    }
    err := None;
  }

  method IndexByName(steps: seq<Step>) returns (byName: map<string, Step>)
    requires Distinct(steps)
    ensures byName.Keys == Names(steps)
    ensures forall a, b :: DependsOn(steps, a, b) <==> a in byName && b in byName[a].dependsOn
  {
    byName := map[];
    for i := 0 to |steps|
      invariant forall name :: name in byName <==> exists j :: 0 <= j < i && steps[j].name == name
      invariant forall j :: 0 <= j < i ==> steps[j].name in byName && byName[steps[j].name] == steps[j]
    {
      byName := byName[steps[i].name := steps[i]];
    }
  }

  /** `ValidateWorkflow` accepts exactly the acceptable workflows, in whatever
      order the final loop picks the names. */
  method ValidateWorkflow(w: Workflow) returns (err: Option<Defect>)
    ensures err.None? <==> Acceptable(w)
    ensures err == Some(MissingName) <==> w.name == ""
    ensures err.Some? && err.value.DependencyCycle? ==> Named(w.steps) && Distinct(w.steps) && Known(w.steps)
  {
    if w.name == "" {
      return Some(MissingName);
    }
    var names;
    err, names := CheckNames(w.steps);
    if err.Some? {
      return;
    }
    err := CheckDependencies(w.steps, names);
    if err.Some? {
      return;
    }
    var byName := IndexByName(w.steps);
    var search := new Search(w.steps, byName);
    var unseen := names;
    while unseen != {}
      invariant search.Valid() && search.visiting == {} && search.steps == w.steps && search.byName == byName
      invariant unseen <= names && names - unseen <= search.visited
      decreases unseen
    {
      var name :| name in unseen;
      assert IsWalk(w.steps, [] + [name]);
      var found, cycle := search.Visit(name, []);
      if found.Some? {
        assert !Acyclic(w.steps);
        return Some(DependencyCycle(found.value));
      }
      unseen := unseen - {name};
    }
    assert names - unseen == names;
    OrderExcludesCycles(w.steps, search.finished);
    err := None;
  }

  // ------------------------------------------------------------ the schedule

  /** `dependenciesComplete`. */
  predicate DependenciesComplete(step: Step, completed: set<string>) {
    forall d :: d in step.dependsOn ==> d in completed
  }

  /** One round over the pending steps: those that run, and those kept. */
  ghost function Sweep(pending: seq<Step>, completed: set<string>): (r: (seq<Step>, seq<Step>))
    ensures |r.0| + |r.1| == |pending|
  {
    if pending == [] then ([], [])
    else
      var last := pending[|pending| - 1];
      var (ready, kept) := Sweep(pending[..|pending| - 1], completed);
      if DependenciesComplete(last, completed + Names(ready)) then (ready + [last], kept)
      else (ready, kept + [last])
  }

  /** The order in which the rounds reach the steps. */
  ghost function Plan(pending: seq<Step>, completed: set<string>): seq<Step>
    decreases |pending|
  {
    var (ready, kept) := Sweep(pending, completed);
    if ready == [] then [] else ready + Plan(kept, completed + Names(ready))
  }

  /** A step called `name` comes before position `i`. */
  ghost predicate EarlierIn(plan: seq<Step>, i: nat, name: string) {
    exists j :: 0 <= j < i && j < |plan| && plan[j].name == name
  }

  /** Each step's dependencies are in `completed` or earlier in the plan. */
  ghost predicate AfterDependencies(plan: seq<Step>, completed: set<string>) {
    forall i, d :: 0 <= i < |plan| && d in plan[i].dependsOn ==> d in completed || EarlierIn(plan, i, d)
  }

  /** Some dependency is missing. */
  ghost predicate Waits(step: Step, completed: set<string>) {
    exists d :: d in step.dependsOn && d !in completed
  }

  lemma NamesAppend(a: seq<Step>, b: seq<Step>)
    ensures Names(a + b) == Names(a) + Names(b)
  {
    forall name | name in Names(a) ensures name in Names(a + b) {
      var i :| 0 <= i < |a| && a[i].name == name;
      assert (a + b)[i].name == name;
    }
    forall name | name in Names(b) ensures name in Names(a + b) {
      var i :| 0 <= i < |b| && b[i].name == name;
      assert (a + b)[|a| + i].name == name;
    }
  }

  lemma AfterDependenciesAppend(a: seq<Step>, b: seq<Step>, completed: set<string>)
    requires AfterDependencies(a, completed) && AfterDependencies(b, completed + Names(a))
    ensures AfterDependencies(a + b, completed)
  {
    var both := a + b;
    forall i, d | 0 <= i < |both| && d in both[i].dependsOn ensures d in completed || EarlierIn(both, i, d) {
      if i < |a| {
        EarlierInMore(a, b, i, d);
      } else {
        assert both[i] == b[i - |a|];
        if d in Names(a) {
          var j :| 0 <= j < |a| && a[j].name == d;
          assert both[j].name == d;
        } else if d !in completed {
          assert EarlierIn(b, i - |a|, d);
          var j :| 0 <= j < i - |a| && b[j].name == d;
          assert both[|a| + j].name == d;
        }
      }
    }
  }

  lemma EarlierInMore(a: seq<Step>, b: seq<Step>, i: nat, name: string)
    requires i <= |a|
    ensures EarlierIn(a, i, name) ==> EarlierIn(a + b, i, name)
  {
    if EarlierIn(a, i, name) {
      var j :| 0 <= j < i && a[j].name == name;
      assert (a + b)[j].name == name;
    }
  }

  lemma {:induction false} SweepSplits(pending: seq<Step>, completed: set<string>)
    ensures var r := Sweep(pending, completed);
            && multiset(r.0) + multiset(r.1) == multiset(pending)
            && AfterDependencies(r.0, completed)
            && (r.0 == [] ==> forall i :: 0 <= i < |pending| ==> Waits(pending[i], completed))
    decreases |pending|
  {
    if pending != [] {
      var front, last := pending[..|pending| - 1], pending[|pending| - 1];
      SweepSplits(front, completed);
      assert pending == front + [last];
      var (ready, kept) := Sweep(front, completed);
      if DependenciesComplete(last, completed + Names(ready)) {
        assert AfterDependencies([last], completed + Names(ready));
        AfterDependenciesAppend(ready, [last], completed);
      } else if ready == [] {
        assert completed + Names(ready) == completed;
      }
    }
  }

  ghost predicate HasSuccessor(steps: seq<Step>, inside: set<string>, n: string) {
    exists m :: m in inside && DependsOn(steps, n, m)
  }

  /** A walk inside a set where everyone depends on someone in the set can be
      extended until it meets itself. */
  lemma {:induction false} WalkMeetsItself(steps: seq<Step>, inside: set<string>, walk: seq<string>)
    requires walk != [] && IsWalk(steps, walk)
    requires forall i :: 0 <= i < |walk| ==> walk[i] in inside
    requires forall n {:trigger HasSuccessor(steps, inside, n)} :: n in inside ==> HasSuccessor(steps, inside, n)
    ensures !Acyclic(steps)
    decreases inside - (set n | n in walk)
  {
    var last := walk[|walk| - 1];
    assert HasSuccessor(steps, inside, last);
    var next :| next in inside && DependsOn(steps, last, next);
    ExtendWalk(steps, walk, next);
    var longer := walk + [next];
    if next in walk {
      var k :| 0 <= k < |walk| && walk[k] == next;
      var cycle := longer[k..];
      SuffixWalk(steps, longer, k);
      assert IsCycle(steps, cycle);
    } else {
      assert (set n | n in longer) == (set n | n in walk) + {next};
      WalkMeetsItself(steps, inside, longer);
    }
  }

  /** What a scheduling state keeps: pending steps are workflow steps, and every
      dependency of a pending step is completed or itself pending. */
  ghost predicate Schedulable(steps: seq<Step>, pending: seq<Step>, completed: set<string>) {
    && (forall p :: p in pending ==> p in steps)
    && (forall p, d :: p in pending && d in p.dependsOn ==> d in completed || d in Names(pending))
  }

  /** Without cycles, every round with pending steps runs at least one. */
  lemma RoundMakesProgress(steps: seq<Step>, pending: seq<Step>, completed: set<string>)
    requires Acyclic(steps) && Schedulable(steps, pending, completed) && pending != []
    ensures Sweep(pending, completed).0 != []
  {
    if Sweep(pending, completed).0 == [] {
      SweepSplits(pending, completed);
      var inside := Names(pending);
      forall n | n in inside ensures HasSuccessor(steps, inside, n) {
        var i :| 0 <= i < |pending| && pending[i].name == n;
        assert pending[i] in pending && Waits(pending[i], completed);
        var d :| d in pending[i].dependsOn && d !in completed;
        var j :| 0 <= j < |steps| && steps[j] == pending[i];
        assert DependsOn(steps, n, d);
      }
      assert pending[0].name in inside;
      WalkMeetsItself(steps, inside, [pending[0].name]);
    }
  }

  lemma KeptIsSchedulable(steps: seq<Step>, pending: seq<Step>, completed: set<string>)
    requires Schedulable(steps, pending, completed)
    ensures var r := Sweep(pending, completed); Schedulable(steps, r.1, completed + Names(r.0))
  {
    SweepSplits(pending, completed);
    var (ready, kept) := Sweep(pending, completed);
    forall p | p in kept ensures p in pending {
      assert p in multiset(kept) && p in multiset(pending);
    }
    forall p, d | p in kept && d in p.dependsOn ensures d in completed + Names(ready) || d in Names(kept) {
      if d !in completed {
        var i :| 0 <= i < |pending| && pending[i].name == d;
        assert pending[i] in multiset(pending);
        assert pending[i] in ready || pending[i] in kept;
      }
    }
  }

  /** One round moves its ready steps from the plan to the steps reached. */
  lemma RoundAdvances(steps: seq<Step>, pending: seq<Step>, completed: set<string>, ran: seq<Step>)
    requires Acyclic(steps) && Schedulable(steps, pending, completed) && pending != []
    ensures var (ready, kept) := Sweep(pending, completed);
            && ready != []
            && Schedulable(steps, kept, completed + Names(ready))
            && ran + Plan(pending, completed) == (ran + ready) + Plan(kept, completed + Names(ready))
  {
    RoundMakesProgress(steps, pending, completed);
    KeptIsSchedulable(steps, pending, completed);
    var (ready, kept) := Sweep(pending, completed);
    assert ran + (ready + Plan(kept, completed + Names(ready))) == (ran + ready) + Plan(kept, completed + Names(ready));
  }

  /** A round keeps a step exactly when one of its dependencies is neither completed
      nor was reached earlier in the same round. */
  lemma SweepNext(pending: seq<Step>, i: nat, completed: set<string>)
    requires i < |pending|
    ensures var (ready, kept) := Sweep(pending[..i], completed);
            Sweep(pending[..i + 1], completed) ==
              if Waits(pending[i], completed + Names(ready)) then (ready, kept + [pending[i]])
              else (ready + [pending[i]], kept)
  {
    assert pending[..i + 1][..i] == pending[..i];
  }

  /** The plan holds every pending step exactly once, after its dependencies. */
  lemma {:induction false} PlanIsComplete(steps: seq<Step>, pending: seq<Step>, completed: set<string>)
    requires Acyclic(steps) && Schedulable(steps, pending, completed)
    ensures multiset(Plan(pending, completed)) == multiset(pending)
    ensures AfterDependencies(Plan(pending, completed), completed)
    decreases |pending|
  {
    var (ready, kept) := Sweep(pending, completed);
    if pending != [] {
      RoundMakesProgress(steps, pending, completed);
      SweepSplits(pending, completed);
      KeptIsSchedulable(steps, pending, completed);
      PlanIsComplete(steps, kept, completed + Names(ready));
      AfterDependenciesAppend(ready, Plan(kept, completed + Names(ready)), completed);
    }
  }

  // ------------------------------------------------------------ running

  datatype Outcome = Passed | Failed | Skipped

  datatype StepResult = StepResult(step: Step, outcome: Outcome)

  datatype RunError = Rejected(defect: Defect) | StepFailed(name: string) | Unresolved

  ghost predicate FailedBefore(results: seq<StepResult>, i: nat) {
    exists j :: 0 <= j < i && j < |results| && results[j].outcome == Failed
  }

  ghost function Steps(results: seq<StepResult>): (steps: seq<Step>)
    ensures |steps| == |results|
  {
    seq(|results|, i requires 0 <= i < |results| => results[i].step)
  }

  /** What one recorded result means: skipped exactly after a failure, unless
      the step always runs or the workflow continues on errors. */
  ghost predicate Recorded(w: Workflow, results: seq<StepResult>, fails: string -> bool, i: nat)
    requires i < |results|
  {
    var r := results[i];
    && (r.outcome == Skipped <==> FailedBefore(results, i) && !w.continueOnError && !r.step.always)
    && (r.outcome == Failed <==> r.outcome != Skipped && fails(r.step.name))
  }

  /** `err` names the first failed step, or is absent when none failed. */
  ghost predicate FirstFailure(results: seq<StepResult>, err: Option<RunError>) {
    if FailedBefore(results, |results|) then
      exists i :: 0 <= i < |results| && results[i].outcome == Failed && !FailedBefore(results, i)
                  && err == Some(StepFailed(results[i].step.name))
    else err == None
  }

  /** The outcome of a step reached when `err` is the error so far. */
  function OutcomeOf(w: Workflow, step: Step, err: Option<RunError>, fails: string -> bool): Outcome {
    if err.Some? && !w.continueOnError && !step.always then Skipped
    else if fails(step.name) then Failed else Passed
  }

  function ErrorAfter(err: Option<RunError>, r: StepResult): Option<RunError> {
    if err.None? && r.outcome == Failed then Some(StepFailed(r.step.name)) else err
  }

  /** The results and the error after the steps of `plan`, taken in order. */
  ghost function Record(w: Workflow, plan: seq<Step>, fails: string -> bool): (seq<StepResult>, Option<RunError>) {
    if plan == [] then ([], None)
    else
      var (results, err) := Record(w, plan[..|plan| - 1], fails);
      var last := plan[|plan| - 1];
      var r := StepResult(last, OutcomeOf(w, last, err, fails));
      (results + [r], ErrorAfter(err, r))
  }

  lemma RecordAppend(w: Workflow, plan: seq<Step>, step: Step, fails: string -> bool)
    ensures var (results, err) := Record(w, plan, fails);
            var r := StepResult(step, OutcomeOf(w, step, err, fails));
            Record(w, plan + [step], fails) == (results + [r], ErrorAfter(err, r))
  {
    assert (plan + [step])[..|plan|] == plan;
  }

  /** Appending a result changes no earlier "a failure came before". */
  lemma FailedBeforeAppend(results: seq<StepResult>, r: StepResult, i: nat)
    requires i <= |results|
    ensures FailedBefore(results + [r], i) <==> FailedBefore(results, i)
    ensures FailedBefore(results + [r], |results| + 1) <==> FailedBefore(results, |results|) || r.outcome == Failed
  {
    var longer := results + [r];
    assert longer[|results|] == r;
    assert forall j :: 0 <= j < |results| ==> longer[j] == results[j];
    if FailedBefore(results, i) {
      var j :| 0 <= j < i && results[j].outcome == Failed;
      assert longer[j].outcome == Failed;
    }
    if FailedBefore(results, |results|) {
      var j :| 0 <= j < |results| && results[j].outcome == Failed;
      assert longer[j].outcome == Failed;
    }
  }

  lemma FirstFailureAppend(results: seq<StepResult>, r: StepResult, err: Option<RunError>)
    requires FirstFailure(results, err)
    ensures FirstFailure(results + [r], ErrorAfter(err, r))
  {
    var longer := results + [r];
    FailedBeforeAppend(results, r, |results|);
    if err.Some? {
      var i :| 0 <= i < |results| && results[i].outcome == Failed && !FailedBefore(results, i)
               && err == Some(StepFailed(results[i].step.name));
      FailedBeforeAppend(results, r, i);
      assert longer[i] == results[i];
    } else if r.outcome == Failed {
      assert longer[|results|] == r;
    }
  }

  /** Recording means what the source promises of skips, failures and the
      returned error. */
  lemma {:induction false} RecordMeaning(w: Workflow, plan: seq<Step>, fails: string -> bool)
    ensures var (results, err) := Record(w, plan, fails);
            && Steps(results) == plan
            && (forall i :: 0 <= i < |results| ==> Recorded(w, results, fails, i))
            && FirstFailure(results, err)
    decreases |plan|
  {
    if plan != [] {
      var front, last := plan[..|plan| - 1], plan[|plan| - 1];
      RecordMeaning(w, front, fails);
      var (results, err) := Record(w, front, fails);
      var r := StepResult(last, OutcomeOf(w, last, err, fails));
      FirstFailureAppend(results, r, err);
      forall i | 0 <= i <= |results| ensures Recorded(w, results + [r], fails, i) {
        FailedBeforeAppend(results, r, i);
        assert i < |results| ==> Recorded(w, results, fails, i);
      }
      assert Steps(results + [r]) == Steps(results) + [last];
    }
  }

  /** A step called `name` has a result before position `i`. */
  ghost predicate RanBefore(results: seq<StepResult>, i: nat, name: string) {
    exists j :: 0 <= j < i && j < |results| && results[j].step.name == name
  }

  /** What `Run` promises about a workflow that validation accepts: every step has
      one result, after those of its dependencies, with the promised skips, and the
      error is that of the first failure. */
  ghost predicate RunMeaning(w: Workflow, fails: string -> bool, results: seq<StepResult>, err: Option<RunError>) {
    && multiset(Steps(results)) == multiset(w.steps)
    && (forall i, d :: 0 <= i < |results| && d in results[i].step.dependsOn ==> RanBefore(results, i, d))
    && (forall i :: 0 <= i < |results| ==> Recorded(w, results, fails, i))
    && FirstFailure(results, err)
  }

  /** Running the plan of an acceptable workflow keeps every promise. */
  lemma PlanKeepsPromises(w: Workflow, fails: string -> bool)
    requires Acceptable(w)
    ensures var (results, err) := Record(w, Plan(w.steps, {}), fails); RunMeaning(w, fails, results, err)
  {
    PlanIsComplete(w.steps, w.steps, {});
    RecordMeaning(w, Plan(w.steps, {}), fails);
    var (results, err) := Record(w, Plan(w.steps, {}), fails);
    forall i, d | 0 <= i < |results| && d in results[i].step.dependsOn ensures RanBefore(results, i, d) {
      var plan := Steps(results);
      assert EarlierIn(plan, i, d) by {
        assert plan[i] == results[i].step;
      }
      var j :| 0 <= j < i && plan[j].name == d;
      assert results[j].step.name == d;
    }
  }

  /** `Runner.Run`. `fails` says which steps fail when they run; a step runs at
      most once, so it covers every pattern of outcomes. Steps are reached in
      the order of `Plan`, each exactly once and after its dependencies. */
  method Run(w: Workflow, fails: string -> bool) returns (results: seq<StepResult>, err: Option<RunError>)
    ensures !Acceptable(w) ==> results == [] && err.Some? && err.value.Rejected?
    ensures Acceptable(w) ==> RunMeaning(w, fails, results, err) && Steps(results) == Plan(w.steps, {})
    ensures err != Some(Unresolved)
  {
    var defect := ValidateWorkflow(w);
    if defect.Some? {
      return [], Some(Rejected(defect.value));
    }
    results, err := RunAccepted(w, fails);
    PlanKeepsPromises(w, fails);
    RecordMeaning(w, Plan(w.steps, {}), fails);
  }

  /** The rounds of `Run`, once the workflow is accepted. */
  method RunAccepted(w: Workflow, fails: string -> bool) returns (results: seq<StepResult>, err: Option<RunError>)
    requires Acyclic(w.steps) && Schedulable(w.steps, w.steps, {})
    ensures (results, err) == Record(w, Plan(w.steps, {}), fails)
  {
    var completed: set<string> := {};
    results, err := [], None;
    var pending := CopyOf(w.steps);
    ghost var ran: seq<Step> := [];
    assert ran + Plan(pending[..], completed) == Plan(w.steps, {});
    while pending.Length > 0
      invariant ran + Plan(pending[..], completed) == Plan(w.steps, {})
      invariant Schedulable(w.steps, pending[..], completed)
      invariant (results, err) == Record(w, ran, fails)
      invariant fresh(pending)
      decreases pending.Length
    {
      ghost var ready := Sweep(pending[..], completed).0;
      RoundAdvances(w.steps, pending[..], completed, ran);
      var kept, progress;
      results, completed, err, kept, progress := Round(w, fails, pending, results, completed, err, ran);
      ran := ran + ready;
      if !progress {
        return results, Some(Unresolved);
      }
      pending := CopyOf(pending[..kept]);
    }
    assert ran + Plan(pending[..], completed) == ran;
  }

  method CopyOf(steps: seq<Step>) returns (a: array<Step>)
    ensures fresh(a) && a[..] == steps
  {
    a := new Step[|steps|](i requires 0 <= i < |steps| => steps[i]);
  }

  /** One round. Steps that must wait are moved to the front of the same array;
      the others run, or are skipped, in order. */
  method Round(w: Workflow, fails: string -> bool, pending: array<Step>, results0: seq<StepResult>,
               completed0: set<string>, err0: Option<RunError>, ghost ran0: seq<Step>)
    returns (results: seq<StepResult>, completed: set<string>, err: Option<RunError>, kept: nat, progress: bool)
    requires (results0, err0) == Record(w, ran0, fails)
    modifies pending
    ensures var round := old(Sweep(pending[..], completed0));
            && (results, err) == Record(w, ran0 + round.0, fails)
            && completed == completed0 + Names(round.0)
            && kept <= pending.Length && pending[..kept] == round.1
            && (progress <==> round.0 != [])
  {
    ghost var all := pending[..];
    results, completed, err, kept, progress := results0, completed0, err0, 0, false;
    ghost var ready: seq<Step>, waiting: seq<Step> := [], [];
    assert ran0 + ready == ran0;
    for i := 0 to pending.Length
      invariant kept <= i
      invariant forall j :: i <= j < pending.Length ==> pending[j] == all[j]
      invariant pending[..kept] == waiting
      invariant (ready, waiting) == Sweep(all[..i], completed0)
      invariant (results, err) == Record(w, ran0 + ready, fails)
      invariant completed == completed0 + Names(ready)
      invariant progress <==> ready != []
    {
      var step := pending[i];
      SweepNext(all, i, completed0);
      if !DependenciesComplete(step, completed) {
        Keep(pending, kept, i);
        kept, waiting := kept + 1, waiting + [step];
      } else {
        results, completed, err := Reach(w, step, fails, results, completed, err, ran0, ready, completed0);
        progress, ready := true, ready + [step];
      }
    }
    assert all[..pending.Length] == all;
  }

  /** Moves the step at `i` to the kept ones. */
  method Keep(pending: array<Step>, kept: nat, i: nat)
    requires kept <= i < pending.Length
    modifies pending
    ensures pending[..kept + 1] == old(pending[..kept]) + [old(pending[i])]
    ensures forall j :: i < j < pending.Length ==> pending[j] == old(pending[j])
  {
    pending[kept] := pending[i];
  }

  /** Runs or skips a step whose dependencies are complete. */
  method Reach(w: Workflow, step: Step, fails: string -> bool, results0: seq<StepResult>, completed0: set<string>,
               err0: Option<RunError>, ghost ran: seq<Step>, ghost ready: seq<Step>, ghost before: set<string>)
    returns (results: seq<StepResult>, completed: set<string>, err: Option<RunError>)
    requires (results0, err0) == Record(w, ran + ready, fails) && completed0 == before + Names(ready)
    ensures (results, err) == Record(w, ran + (ready + [step]), fails)
    ensures completed == before + Names(ready + [step])
  {
    RoundStep(w, ran, ready, step, fails);
    var result := StepResult(step, OutcomeOf(w, step, err0, fails));
    completed := completed0 + {step.name};
    results, err := results0 + [result], ErrorAfter(err0, result);
  }

  /** The bookkeeping of one step that is reached. */
  lemma RoundStep(w: Workflow, ran: seq<Step>, ready: seq<Step>, step: Step, fails: string -> bool)
    ensures Names(ready + [step]) == Names(ready) + {step.name}
    ensures var (results, err) := Record(w, ran + ready, fails);
            var r := StepResult(step, OutcomeOf(w, step, err, fails));
            Record(w, ran + (ready + [step]), fails) == (results + [r], ErrorAfter(err, r))
  {
    RecordAppend(w, ran + ready, step, fails);
    assert ran + ready + [step] == ran + (ready + [step]);
    NamesAppend(ready, [step]);
    assert [step][0].name in Names([step]);
  }
}
