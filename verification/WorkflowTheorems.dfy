/** Saga order, coverage, termination and progress of workflow runs. */
module WorkflowTheorems {
  import opened Common
  import opened WorkflowDefinitions
  import opened WorkflowRunner
  import opened WorkflowRuns

  /** The position of the current step. */
  function Position(def: WorkflowDefinition, x: Execution): nat
    requires x.currentStep.Some? && def.IndexOf(x.currentStep.value).Some?
  {
    def.IndexOf(x.currentStep.value).value
  }

  predicate Overrides(result: StepResult) {
    result.nextStepOverride.Some? && result.nextStepOverride.value != ""
  }

  /** If the step branches to a step of the workflow, that step comes later. */
  predicate BranchesForward(def: WorkflowDefinition, x: Execution, c: Call) {
    var result := ResultOf(c.outcome);
    (Overrides(result) && def.IndexOf(result.nextStepOverride.value).Some?
     && x.currentStep.Some? && def.IndexOf(x.currentStep.value).Some?) ==>
      def.IndexOf(result.nextStepOverride.value).value > Position(def, x)
  }

  predicate ForwardRun(def: WorkflowDefinition, calls: seq<Call>)
    requires def.steps != []
  {
    calls == [] || (ForwardRun(def, calls[..|calls| - 1])
                    && BranchesForward(def, Run(def, calls[..|calls| - 1]).x, Last(calls)))
  }

  function SumAttempts(steps: seq<WorkflowStep>): nat {
    if steps == [] then 0 else steps[0].MaxAttempts() + SumAttempts(steps[1..])
  }

  /** Executions still owed: all attempts of the later steps, and what is left of the current one's. */
  function Potential(def: WorkflowDefinition, x: Execution): nat
    requires x.currentStep.Some? && def.IndexOf(x.currentStep.value).Some?
  {
    var i := Position(def, x);
    if Terminal(x) then 0
    else SumAttempts(def.steps[i + 1..])
         + if Attempts(x, def.steps[i].name) < def.steps[i].MaxAttempts()
           then def.steps[i].MaxAttempts() - Attempts(x, def.steps[i].name) else 1
  }

  ghost predicate Positioned(def: WorkflowDefinition, x: Execution) {
    x.currentStep.Some? && def.IndexOf(x.currentStep.value).Some?
  }

  /** The named steps stand in definition order, all of them before position end. */
  ghost predicate Ascending(def: WorkflowDefinition, names: seq<string>, end: nat) {
    names == [] ||
    (def.IndexOf(Last(names)).Some? && def.IndexOf(Last(names)).value < end
     && Ascending(def, names[..|names| - 1], def.IndexOf(Last(names)).value))
  }

  /** The first position that no completed step can have. */
  function Horizon(def: WorkflowDefinition, x: Execution): nat
    requires Positioned(def, x)
  {
    if x.status == Succeeded then Position(def, x) + 1 else Position(def, x)
  }

  ghost predicate LaterUntouched(def: WorkflowDefinition, x: Execution)
    requires Positioned(def, x)
  {
    forall j :: Position(def, x) < j < |def.steps| ==> def.steps[j].name !in x.stepStates
  }

  const DONE := {Some(StepSucceeded), Some(StepSkipped)}

  predicate RecordedSucceeded(x: Execution, name: string) {
    name in x.stepStates && x.stepStates[name].status == Some(StepSucceeded)
  }

  ghost predicate RecordMatches(def: WorkflowDefinition, x: Execution)
    requires Positioned(def, x)
  {
    forall j :: 0 <= j < Horizon(def, x) ==>
      (def.steps[j].name in x.completedSteps <==> RecordedSucceeded(x, def.steps[j].name))
  }

  /** Later steps are untouched; the completed ones are, in order, the earlier ones recorded as succeeded. */
  ghost predicate Advancing(def: WorkflowDefinition, x: Execution)
    requires Positioned(def, x)
  {
    LaterUntouched(def, x) && Ascending(def, x.completedSteps, Horizon(def, x)) && RecordMatches(def, x)
  }

  ghost predicate Forward(def: WorkflowDefinition, t: Trace)
    requires Positioned(def, t.x)
  {
    Advancing(def, t.x) && |t.tries| + Potential(def, t.x) <= SumAttempts(def.steps) + Waits(t.tries)
  }

  /** Dropping steps takes their attempts away. */
  lemma {:induction false} SumAttemptsFrom(steps: seq<WorkflowStep>, i: nat, j: nat)
    requires i <= j < |steps|
    ensures SumAttempts(steps[j + 1..]) + steps[j].MaxAttempts() <= SumAttempts(steps[i..])
    decreases j - i
  {
    assert steps[i..][1..] == steps[i + 1..];
    if i < j {
      SumAttemptsFrom(steps, i + 1, j);
    }
  }

  /** Where a step that succeeded or was skipped sends a forward run. */
  lemma SuccessorIsLater(def: WorkflowDefinition, x: Execution, c: Call)
    requires def.DistinctNames() && Positioned(def, x) && BranchesForward(def, x, c)
    ensures var next := Successor(def, x.currentStep.value, ResultOf(c.outcome));
      next.Some? ==> def.IndexOf(next.value.name).Some? && def.IndexOf(next.value.name).value > Position(def, x)
  {
  }

  /** A forward run stays where it is, or moves on to a later step and is running. */
  lemma TransitionMoves(def: WorkflowDefinition, x: Execution, c: Call)
    requires def.DistinctNames() && Positioned(def, x) && !Terminal(x) && BranchesForward(def, x, c)
    ensures var y := Transitioned(def, x, def.steps[Position(def, x)], c);
      && Positioned(def, y)
      && (Position(def, y) == Position(def, x) || (Position(def, y) > Position(def, x) && y.status == Running))
      && (ResultOf(c.outcome).status == StepSucceeded || ResultOf(c.outcome).status == StepSkipped ==>
            Position(def, y) > Position(def, x) || y.status == Succeeded)
  {
    SuccessorIsLater(def, x, c);
  }

  lemma {:induction false} AscendingBelow(def: WorkflowDefinition, names: seq<string>, end: nat)
    requires Ascending(def, names, end)
    ensures forall n :: n in names ==> def.IndexOf(n).Some? && def.IndexOf(n).value < end
  {
    if names != [] {
      AscendingBelow(def, names[..|names| - 1], def.IndexOf(Last(names)).value);
      assert names == names[..|names| - 1] + [Last(names)];
    }
  }

  lemma TransitionKeepsOrder(def: WorkflowDefinition, x: Execution, c: Call)
    requires def.DistinctNames() && Positioned(def, x) && !Terminal(x) && BranchesForward(def, x, c)
    requires Ascending(def, x.completedSteps, Position(def, x))
    ensures var y := Transitioned(def, x, def.steps[Position(def, x)], c);
      Positioned(def, y) && Ascending(def, y.completedSteps, Horizon(def, y))
  {
    var i := Position(def, x);
    var y := Transitioned(def, x, def.steps[i], c);
    TransitionCounts(def, x, def.steps[i], c);
    TransitionMoves(def, x, c);
    if ResultOf(c.outcome).status == StepSucceeded {
      assert y.completedSteps[..|y.completedSteps| - 1] == x.completedSteps;
    }
  }

  lemma TransitionKeepsRecord(def: WorkflowDefinition, x: Execution, c: Call)
    requires def.DistinctNames() && Positioned(def, x) && !Terminal(x) && BranchesForward(def, x, c)
    requires Advancing(def, x)
    ensures var y := Transitioned(def, x, def.steps[Position(def, x)], c);
      Positioned(def, y) && RecordMatches(def, y)
  {
    var i := Position(def, x);
    var y := Transitioned(def, x, def.steps[i], c);
    TransitionCounts(def, x, def.steps[i], c);
    TransitionMoves(def, x, c);
    AscendingBelow(def, x.completedSteps, i);
    forall j | 0 <= j < Horizon(def, y)
      ensures def.steps[j].name in y.completedSteps <==> RecordedSucceeded(y, def.steps[j].name)
    {
      var name := def.steps[j].name;
      assert j != i ==> (name in y.completedSteps <==> name in x.completedSteps);
      assert j != i ==> (RecordedSucceeded(y, name) <==> RecordedSucceeded(x, name));
    }
  }

  lemma TransitionKeepsAdvancing(def: WorkflowDefinition, x: Execution, c: Call)
    requires def.DistinctNames() && Positioned(def, x) && !Terminal(x) && BranchesForward(def, x, c)
    requires Advancing(def, x)
    ensures var y := Transitioned(def, x, def.steps[Position(def, x)], c);
      Positioned(def, y) && Advancing(def, y)
  {
    TransitionCounts(def, x, def.steps[Position(def, x)], c);
    TransitionMoves(def, x, c);
    TransitionKeepsOrder(def, x, c);
    TransitionKeepsRecord(def, x, c);
  }

  /** The measure: a later step reached, an end reached, or one attempt fewer left. */
  lemma PotentialDrops(def: WorkflowDefinition, x: Execution, y: Execution)
    requires Positioned(def, x) && Positioned(def, y) && !Terminal(x)
    requires Position(def, y) >= Position(def, x)
    requires Position(def, y) > Position(def, x) ==> Attempts(y, def.steps[Position(def, y)].name) == 0
    requires Position(def, y) == Position(def, x) && !Terminal(y) ==>
      Attempts(y, x.currentStep.value) == Attempts(x, x.currentStep.value) + 1
    ensures Potential(def, y) <= Potential(def, x)
    ensures !Terminal(y) && Attempts(y, x.currentStep.value) < def.steps[Position(def, x)].MaxAttempts() ==>
              Potential(def, y) < Potential(def, x)
    ensures Position(def, y) > Position(def, x) || Terminal(y) ==> Potential(def, y) < Potential(def, x)
  {
    if Position(def, y) > Position(def, x) {
      SumAttemptsFrom(def.steps, Position(def, x) + 1, Position(def, y));
    }
  }

  /** Every execution after which the step did not ask to wait uses up one of the attempts still owed. */
  lemma TransitionSpends(def: WorkflowDefinition, x: Execution, c: Call)
    requires def.DistinctNames() && Positioned(def, x) && !Terminal(x) && BranchesForward(def, x, c)
    requires LaterUntouched(def, x)
    ensures var y := Transitioned(def, x, def.steps[Position(def, x)], c);
      Positioned(def, y)
      && Potential(def, y) + (if ResultOf(c.outcome).status == StepWaiting then 0 else 1) <= Potential(def, x)
  {
    var step := def.steps[Position(def, x)];
    var y := Transitioned(def, x, step, c);
    TransitionCounts(def, x, step, c);
    TransitionMoves(def, x, c);
    PotentialDrops(def, x, y);
  }

  lemma ObserveKeepsForward(def: WorkflowDefinition, t: Trace, c: Call)
    requires def.DistinctNames() && Positioned(def, t.x) && Forward(def, t) && BranchesForward(def, t.x, c)
    ensures Positioned(def, Observe(def, t, c).x) && Forward(def, Observe(def, t, c))
  {
    if Resumed(def, t.x, c).Ok? && !StillWaiting(t.x, c.now) {
      var u := Observe(def, t, c);
      assert u.x == Transitioned(def, t.x, def.steps[Position(def, t.x)], c);
      assert u.tries[..|u.tries| - 1] == t.tries;
      TransitionKeepsAdvancing(def, t.x, c);
      TransitionSpends(def, t.x, c);
    }
  }

  lemma {:induction false} ForwardRunIsForward(def: WorkflowDefinition, calls: seq<Call>)
    requires def.steps != [] && def.DistinctNames() && ForwardRun(def, calls)
    ensures Positioned(def, Run(def, calls).x) && Forward(def, Run(def, calls))
  {
    if calls == [] {
      assert def.steps[0..] == def.steps;
      SumAttemptsFrom(def.steps, 0, 0);
    } else {
      var before := calls[..|calls| - 1];
      ForwardRunIsForward(def, before);
      ObserveKeepsForward(def, Run(def, before), Last(calls));
    }
  }

  // ---- Saga order and coverage ----

  const ONCE := RetryPolicy(1, None)

  function Filtered(def: WorkflowDefinition, names: seq<string>): seq<string> {
    if names == [] then []
    else Filtered(def, names[..|names| - 1])
         + if def.StepNamed(Last(names)).Some? && def.StepNamed(Last(names)).value.compensating then [Last(names)] else []
  }

  lemma {:induction false} RollbackNamesExact(def: WorkflowDefinition, end: nat)
    requires end <= |def.steps|
    ensures forall name :: name in RollbackNames(def.steps, end) <==>
      exists i: nat :: i < end && def.steps[i].compensating && def.steps[i].name == name
  {
    if end > 0 {
      RollbackNamesExact(def, end - 1);
    }
  }

  /** Steps outside the prefix do not matter to what the prefix keeps. */
  lemma {:induction false} RollbackKeepsSame(def: WorkflowDefinition, end: nat, one: set<string>, two: set<string>)
    requires end <= |def.steps|
    requires forall i :: 0 <= i < end ==> (def.steps[i].name in one <==> def.steps[i].name in two)
    ensures Within(RollbackNames(def.steps, end), one) == Within(RollbackNames(def.steps, end), two)
  {
    if end > 0 {
      RollbackKeepsSame(def, end - 1, one, two);
      if def.steps[end - 1].compensating {
        assert RollbackNames(def.steps, end)[1..] == RollbackNames(def.steps, end - 1);
      }
    }
  }

  lemma FilteredLast(def: WorkflowDefinition, names: seq<string>, k: nat)
    requires k < |def.steps| && names != [] && def.IndexOf(Last(names)) == Some(k)
    ensures Last(names) == def.steps[k].name
    ensures Reverse(Filtered(def, names))
         == (if def.steps[k].compensating then [def.steps[k].name] else []) + Reverse(Filtered(def, names[..|names| - 1]))
  {
    var earlier := Filtered(def, names[..|names| - 1]);
    assert def.StepNamed(Last(names)) == Some(def.steps[k]);
    assert Filtered(def, names) == earlier + if def.steps[k].compensating then [Last(names)] else [];
    if def.steps[k].compensating {
      ReverseSnoc(earlier, Last(names));
    } else {
      assert earlier + [] == earlier;
    }
  }

  /** Restricted to what completed, a rollback is the completed compensating steps in reverse order. */
  lemma {:induction false} RollbackReversesCompletion(def: WorkflowDefinition, names: seq<string>, end: nat)
    requires end <= |def.steps| && def.DistinctNames() && Ascending(def, names, end)
    ensures Within(RollbackNames(def.steps, end), ToSet(names)) == Reverse(Filtered(def, names))
  {
    if end > 0 {
      var last := def.steps[end - 1];
      var done := ToSet(names);
      WithinCons(last.name, RollbackNames(def.steps, end - 1), done);
      if names != [] && def.IndexOf(Last(names)).value == end - 1 {
        var earlier := names[..|names| - 1];
        RollbackReversesCompletion(def, earlier, end - 1);
        RollbackDropsLast(def, names, end);
        FilteredLast(def, names, end - 1);
        assert last.name in done;
      } else {
        AscendingBelow(def, names, end - 1);
        RollbackReversesCompletion(def, names, end - 1);
        assert last.name !in done;
      }
    }
  }

  /** The completed step at the end of the prefix plays no part in the rollback of the steps before it. */
  lemma RollbackDropsLast(def: WorkflowDefinition, names: seq<string>, end: nat)
    requires 0 < end <= |def.steps| && def.DistinctNames()
    requires names != [] && Last(names) == def.steps[end - 1].name
    ensures Within(RollbackNames(def.steps, end - 1), ToSet(names))
         == Within(RollbackNames(def.steps, end - 1), ToSet(names[..|names| - 1]))
  {
    var earlier := names[..|names| - 1];
    assert names == earlier + [Last(names)];
    RollbackKeepsSame(def, end - 1, ToSet(names), ToSet(earlier));
  }

  /** In every run that fails, the log holds the compensating steps from the failed one back to the first,
      once each, in reverse definition order, whichever compensations raised. */
  lemma SagaOrder(def: WorkflowDefinition, calls: seq<Call>)
    requires def.steps != []
    requires Run(def, calls).x.status == Failed
    ensures var x := Run(def, calls).x;
      Positioned(def, x) && LogNames(x.compensationLog) == RollbackNames(def.steps, Position(def, x) + 1)
  {
    RunIsSound(def, calls);
  }

  lemma RollbackOfCompleted(def: WorkflowDefinition, x: Execution)
    requires def.DistinctNames() && Positioned(def, x) && Advancing(def, x) && x.status == Failed
    ensures Within(RollbackNames(def.steps, Position(def, x) + 1), ToSet(x.completedSteps))
         == Reverse(Filtered(def, x.completedSteps))
  {
    RollbackReversesCompletion(def, x.completedSteps, Position(def, x) + 1);
  }

  /** Whatever is on record of a step before the current one is that it succeeded or was skipped. */
  ghost predicate EarlierSettled(def: WorkflowDefinition, x: Execution)
    requires Positioned(def, x)
  {
    forall j :: 0 <= j < Horizon(def, x) && def.steps[j].name in x.stepStates ==> x.stepStates[def.steps[j].name].status in DONE
  }

  lemma TransitionKeepsSettled(def: WorkflowDefinition, x: Execution, c: Call)
    requires def.DistinctNames() && Positioned(def, x) && !Terminal(x) && BranchesForward(def, x, c)
    requires LaterUntouched(def, x) && EarlierSettled(def, x)
    ensures var y := Transitioned(def, x, def.steps[Position(def, x)], c); Positioned(def, y) && EarlierSettled(def, y)
  {
    TransitionCounts(def, x, def.steps[Position(def, x)], c);
    TransitionMoves(def, x, c);
  }

  lemma {:induction false} ForwardRunIsSettled(def: WorkflowDefinition, calls: seq<Call>)
    requires def.steps != [] && def.DistinctNames() && ForwardRun(def, calls)
    ensures var x := Run(def, calls).x; Positioned(def, x) && EarlierSettled(def, x)
  {
    if calls != [] {
      var before := calls[..|calls| - 1];
      ForwardRunIsSettled(def, before);
      ForwardRunIsForward(def, before);
      RunIsSound(def, before);
      var x := Run(def, before).x;
      if !Terminal(x) && !StillWaiting(x, Last(calls).now) {
        TransitionKeepsSettled(def, x, Last(calls));
      }
    }
  }

  /** A step on the rollback that did not complete is the failing one, or was skipped or jumped over. */
  predicate NeverCompleted(x: Execution, name: string) {
    Some(name) == x.currentStep || name !in x.stepStates || x.stepStates[name].status == Some(StepSkipped)
  }

  lemma RollbackExtras(def: WorkflowDefinition, x: Execution)
    requires def.DistinctNames() && Positioned(def, x) && Advancing(def, x) && EarlierSettled(def, x) && x.status == Failed
    ensures forall n :: n in RollbackNames(def.steps, Position(def, x) + 1) && n !in x.completedSteps ==> NeverCompleted(x, n)
  {
    var k := Position(def, x);
    RollbackNamesExact(def, k + 1);
    forall n | n in RollbackNames(def.steps, k + 1) && n !in x.completedSteps ensures NeverCompleted(x, n) {
      var i :| 0 <= i < k + 1 && def.steps[i].compensating && def.steps[i].name == n;
      if i < k {
        assert !RecordedSucceeded(x, def.steps[i].name);
      }
    }
  }

  /** When branches only jump forward, the completed compensating steps are all compensated, in reverse completion order;
      what else is compensated is the failing step, or was skipped or jumped over. */
  lemma SagaCoverage(def: WorkflowDefinition, calls: seq<Call>)
    requires def.steps != [] && def.DistinctNames() && ForwardRun(def, calls)
    requires Run(def, calls).x.status == Failed
    ensures var x := Run(def, calls).x;
      Within(LogNames(x.compensationLog), ToSet(x.completedSteps)) == Reverse(Filtered(def, x.completedSteps))
    ensures var x := Run(def, calls).x;
      forall n :: n in LogNames(x.compensationLog) && n !in x.completedSteps ==> NeverCompleted(x, n)
  {
    SagaOrder(def, calls);
    ForwardRunIsForward(def, calls);
    ForwardRunIsSettled(def, calls);
    RollbackOfCompleted(def, Run(def, calls).x);
    RollbackExtras(def, Run(def, calls).x);
  }

  lemma {:induction false} FilteredExact(def: WorkflowDefinition, names: seq<string>)
    ensures forall n :: n in Filtered(def, names) <==>
      n in names && def.StepNamed(n).Some? && def.StepNamed(n).value.compensating
  {
    if names != [] {
      FilteredExact(def, names[..|names| - 1]);
      assert names == names[..|names| - 1] + [Last(names)];
    }
  }

  /** No step is rolled back that is not on record as having succeeded. */
  ghost predicate OnlySucceededRolledBack(def: WorkflowDefinition, x: Execution, k: nat)
    requires k < |def.steps|
  {
    !def.steps[k].compensating
    && forall i :: 0 <= i < k && def.steps[i].compensating ==> RecordedSucceeded(x, def.steps[i].name)
  }

  lemma RollbackWithinCompleted(def: WorkflowDefinition, x: Execution)
    requires def.DistinctNames() && Positioned(def, x) && Advancing(def, x) && x.status == Failed
    ensures (forall n :: n in RollbackNames(def.steps, Position(def, x) + 1) ==> n in ToSet(x.completedSteps))
       <==> OnlySucceededRolledBack(def, x, Position(def, x))
  {
    var k := Position(def, x);
    RollbackNamesExact(def, k + 1);
    AscendingBelow(def, x.completedSteps, k);
    var rollback := RollbackNames(def.steps, k + 1);
    assert def.steps[k].compensating ==> def.steps[k].name in rollback;
    if forall n :: n in rollback ==> n in ToSet(x.completedSteps) {
      assert def.steps[k].name !in x.completedSteps;
      forall i | 0 <= i < k && def.steps[i].compensating ensures RecordedSucceeded(x, def.steps[i].name) {
        assert def.steps[i].name in rollback;
        assert def.steps[i].name in x.completedSteps;
      }
    }
    if OnlySucceededRolledBack(def, x, k) {
      forall n | n in rollback ensures n in ToSet(x.completedSteps) {
        var i :| 0 <= i < k + 1 && def.steps[i].compensating && def.steps[i].name == n;
        assert i < k && RecordedSucceeded(x, def.steps[i].name);
      }
    }
  }

  /** The guide says only steps that succeeded are compensated. That holds of a failed forward run exactly when the
      failed step is not a compensating one and every compensating step before it is recorded as succeeded. */
  lemma OnlySucceededCompensatedIff(def: WorkflowDefinition, calls: seq<Call>)
    requires def.steps != [] && def.DistinctNames() && ForwardRun(def, calls)
    requires Run(def, calls).x.status == Failed
    ensures var x := Run(def, calls).x;
      Positioned(def, x)
      && (LogNames(x.compensationLog) == Reverse(Filtered(def, x.completedSteps))
          <==> OnlySucceededRolledBack(def, x, Position(def, x)))
  {
    var x := Run(def, calls).x;
    SagaOrder(def, calls);
    SagaCoverage(def, calls);
    ForwardRunIsForward(def, calls);
    WithinIsIdentity(LogNames(x.compensationLog), ToSet(x.completedSteps));
    RollbackWithinCompleted(def, x);
  }

  /** A step that never succeeded is compensated: one step, one attempt, one exception. */
  lemma FailedStepIsCompensated()
    ensures var def := WorkflowDefinition([WorkflowStep("charge", Some(ONCE), true)]);
      var x := Run(def, [Call(0, 1, Raised("declined"), {}, 0.0)]).x;
      x.status == Failed && x.completedSteps == [] && LogNames(x.compensationLog) == ["charge"]
  {
    var def := WorkflowDefinition([WorkflowStep("charge", Some(ONCE), true)]);
    var c := Call(0, 1, Raised("declined"), {}, 0.0);
    assert [c][..0] == [];
    var x := Run(def, []).x;
    assert def.IndexOf("charge") == Some(0);
    assert Run(def, [c]).x == Transitioned(def, x, def.steps[0], c);
    TransitionFails(def, x, def.steps[0], c);
    TransitionCounts(def, x, def.steps[0], c);
    assert RollbackNames(def.steps, 0) == [] && RollbackNames(def.steps, 1) == ["charge"] + [];
  }

  /** Every completed compensating step has been compensated. */
  ghost predicate CompletedCovered(def: WorkflowDefinition, x: Execution) {
    forall n :: n in Filtered(def, x.completedSteps) ==> n in LogNames(x.compensationLog)
  }

  lemma RollbackCoversIff(def: WorkflowDefinition, completed: seq<string>, k: nat)
    requires def.DistinctNames() && k < |def.steps|
    ensures (forall n :: n in Filtered(def, completed) ==> n in RollbackNames(def.steps, k + 1)) <==>
      forall j :: k < j < |def.steps| && def.steps[j].compensating ==> def.steps[j].name !in completed
  {
    FilteredExact(def, completed);
    RollbackNamesExact(def, k + 1);
    forall j | k < j < |def.steps| && def.steps[j].compensating
      ensures def.steps[j].name !in RollbackNames(def.steps, k + 1)
      ensures def.steps[j].name in Filtered(def, completed) <==> def.steps[j].name in completed
    {
      assert def.StepNamed(def.steps[j].name) == Some(def.steps[j]);
    }
  }

  /** In any failed run, branching back or not, the completed compensating steps are all compensated exactly when
      none of them lies after the step that failed. */
  lemma CoverageIff(def: WorkflowDefinition, calls: seq<Call>)
    requires def.steps != [] && def.DistinctNames() && Run(def, calls).x.status == Failed
    ensures var x := Run(def, calls).x;
      Positioned(def, x)
      && (CompletedCovered(def, x) <==>
          forall j :: Position(def, x) < j < |def.steps| && def.steps[j].compensating ==>
            def.steps[j].name !in x.completedSteps)
  {
    SagaOrder(def, calls);
    var x := Run(def, calls).x;
    CoveredIff(def, x, Position(def, x));
  }

  lemma CoveredIff(def: WorkflowDefinition, x: Execution, k: nat)
    requires def.DistinctNames() && k < |def.steps| && LogNames(x.compensationLog) == RollbackNames(def.steps, k + 1)
    ensures CompletedCovered(def, x) <==>
      forall j :: k < j < |def.steps| && def.steps[j].compensating ==> def.steps[j].name !in x.completedSteps
  {
    var log := LogNames(x.compensationLog);
    RollbackCoversIff(def, x.completedSteps, k);
    assert CompletedCovered(def, x) <==> forall n :: n in Filtered(def, x.completedSteps) ==> n in log;
  }

  const SHIPPING := WorkflowDefinition([WorkflowStep("reserve", Some(ONCE), true), WorkflowStep("ship", Some(ONCE), true)])
  const RESERVED := Call(0, 1, Returned(StepResult(StepSucceeded, None, None, None)), {}, 0.0)
  const SHIPPED_AND_BACK := Call(2, 3, Returned(StepResult(StepSucceeded, None, Some("reserve"), None)), {}, 0.0)
  const OUT_OF_STOCK := Call(4, 5, Raised("out of stock"), {}, 0.0)

  lemma ShippedAndBack()
    ensures var x := Run(SHIPPING, [RESERVED, SHIPPED_AND_BACK]).x;
      x.status == Running && x.currentStep == Some("reserve") && x.completedSteps == ["reserve", "ship"]
      && Attempts(x, "reserve") == 1
  {
    var def := SHIPPING;
    assert FirstIndex(def.steps, "ship", 1) == Some(1);
    assert [RESERVED][..0] == [] && [RESERVED, SHIPPED_AND_BACK][..1] == [RESERVED];
    var x0, x1 := Run(def, []).x, Run(def, [RESERVED]).x;
    assert x1 == Transitioned(def, x0, def.steps[0], RESERVED);
    assert x1.status == Running && x1.currentStep == Some("ship");
    var x2 := Run(def, [RESERVED, SHIPPED_AND_BACK]).x;
    assert x2 == Transitioned(def, x1, def.steps[1], SHIPPED_AND_BACK);
    assert Successor(def, "ship", SHIPPED_AND_BACK.outcome.result) == Some(def.steps[0]);
  }

  /** A branch back can leave a completed compensating step behind: ship succeeds and branches back to reserve,
      which then fails; ship is never compensated. */
  lemma BackwardBranchEscapesRollback()
    ensures var x := Run(SHIPPING, [RESERVED, SHIPPED_AND_BACK, OUT_OF_STOCK]).x;
      x.status == Failed && "ship" in x.completedSteps && LogNames(x.compensationLog) == ["reserve"]
  {
    var calls := [RESERVED, SHIPPED_AND_BACK, OUT_OF_STOCK];
    ShippedAndBack();
    assert calls[..2] == [RESERVED, SHIPPED_AND_BACK];
    RunIsSound(SHIPPING, calls[..2]);
    var x2 := Run(SHIPPING, calls[..2]).x;
    assert Run(SHIPPING, calls).x == Transitioned(SHIPPING, x2, SHIPPING.steps[0], OUT_OF_STOCK);
    TransitionFails(SHIPPING, x2, SHIPPING.steps[0], OUT_OF_STOCK);
    TransitionCounts(SHIPPING, x2, SHIPPING.steps[0], OUT_OF_STOCK);
    assert RollbackNames(SHIPPING.steps, 0) == [];
    assert RollbackNames(SHIPPING.steps, 1) == ["reserve"] + [];
  }

  // ---- Termination ----

  /** A forward run executes steps at most as often as their attempts add up to, plus once per requested wait. */
  lemma ExecutionsBounded(def: WorkflowDefinition, calls: seq<Call>)
    requires def.steps != [] && def.DistinctNames() && ForwardRun(def, calls)
    ensures var t := Run(def, calls); |t.tries| <= SumAttempts(def.steps) + Waits(t.tries)
  {
    ForwardRunIsForward(def, calls);
  }

  lemma {:induction false} CallsAccountedFor(def: WorkflowDefinition, calls: seq<Call>)
    requires def.steps != []
    ensures var t := Run(def, calls); |calls| >= |t.tries| + t.stutters
    ensures var t := Run(def, calls); !Terminal(t.x) ==> |calls| == |t.tries| + t.stutters
  {
    if calls != [] {
      CallsAccountedFor(def, calls[..|calls| - 1]);
      RunIsSound(def, calls[..|calls| - 1]);
    }
  }

  /** Resuming often enough ends the workflow: only requested waits and resumes that come too early put it off. */
  lemma RunsEnd(def: WorkflowDefinition, calls: seq<Call>)
    requires def.steps != [] && def.DistinctNames() && ForwardRun(def, calls)
    requires var t := Run(def, calls); |calls| >= SumAttempts(def.steps) + Waits(t.tries) + t.stutters
    ensures Run(def, calls).x.status == Succeeded || Run(def, calls).x.status == Failed
  {
    ForwardRunIsForward(def, calls);
    CallsAccountedFor(def, calls);
  }

  /** Once over, a workflow is not changed by any resume. */
  lemma {:induction false} TerminalIsAbsorbing(def: WorkflowDefinition, calls: seq<Call>, more: seq<Call>)
    requires def.steps != [] && Terminal(Run(def, calls).x)
    ensures Run(def, calls + more) == Run(def, calls)
    decreases |more|
  {
    if more == [] {
      assert calls + more == calls;
    } else {
      var fewer := more[..|more| - 1];
      TerminalIsAbsorbing(def, calls, fewer);
      assert (calls + more)[..|calls + more| - 1] == calls + fewer;
    }
  }

  /** Advance, which the queued job calls, does not look at the status: on any execution that is over it runs the
      last step again, so redelivery of a job can repeat work. */
  lemma AdvanceRepeatsFinishedStep(def: WorkflowDefinition, calls: seq<Call>, c: Call)
    requires def.steps != [] && Terminal(Run(def, calls).x)
    ensures Resumed(def, Run(def, calls).x, c).Err?
    ensures var x := Run(def, calls).x;
      Advanced(def, x, c).Ok? && Positioned(def, x)
      && Attempts(Advanced(def, x, c).value, x.currentStep.value) == Attempts(x, x.currentStep.value) + 1
  {
    RunIsSound(def, calls);
    var x := Run(def, calls).x;
    TransitionCounts(def, x, def.StepNamed(x.currentStep.value).value, c);
  }

  // ---- What the record says ----

  /** Without branching, every step before the current one is recorded as succeeded or skipped. */
  ghost predicate EarlierDone(def: WorkflowDefinition, x: Execution)
    requires Positioned(def, x)
  {
    forall j :: (0 <= j < Position(def, x) || (j == Position(def, x) && x.status == Succeeded)) ==>
      def.steps[j].name in x.stepStates
      && StateOf(x, def.steps[j].name).status in DONE
  }

  ghost predicate DoneAtEnd(def: WorkflowDefinition, x: Execution)
    requires Positioned(def, x)
  {
    EarlierDone(def, x) && (x.status == Succeeded ==> Position(def, x) == |def.steps| - 1)
  }

  lemma TransitionKeepsEarlierDone(def: WorkflowDefinition, x: Execution, c: Call)
    requires def.DistinctNames() && Positioned(def, x) && !Terminal(x) && DoneAtEnd(def, x)
    requires !Overrides(ResultOf(c.outcome))
    ensures var y := Transitioned(def, x, def.steps[Position(def, x)], c); Positioned(def, y) && DoneAtEnd(def, y)
  {
    TransitionCounts(def, x, def.steps[Position(def, x)], c);
  }

  lemma {:induction false} WithoutBranchesEarlierDone(def: WorkflowDefinition, calls: seq<Call>)
    requires def.steps != [] && def.DistinctNames()
    requires forall c :: c in calls ==> !Overrides(ResultOf(c.outcome))
    ensures var x := Run(def, calls).x; Positioned(def, x) && DoneAtEnd(def, x)
  {
    if calls != [] {
      var before := calls[..|calls| - 1];
      WithoutBranchesEarlierDone(def, before);
      var x := Run(def, before).x;
      var c := Last(calls);
      assert c in calls;
      if Resumed(def, x, c).Ok? && !StillWaiting(x, c.now) {
        TransitionKeepsEarlierDone(def, x, c);
      }
    }
  }

  /** The end of the delay computed for a retry. */
  function DeferredUntil(finishedAt: int, seconds: real): real {
    finishedAt as real + seconds * SECOND as real
  }

  /** A failed step that has attempts left is due at once: whatever delay its backoff policy comes to, every resume from
      then on runs it again, among them, if the delay is any, some before the delay is over. */
  lemma RetryIsNotDelayed(def: WorkflowDefinition, x: Execution, c: Call, seconds: real)
    requires Positioned(def, x) && !Terminal(x) && x.status != Pending && x.status != Canceled
    requires ResultOf(c.outcome).status == StepFailed
    requires var step := def.steps[Position(def, x)]; var attempts := Attempts(x, step.name) + 1;
      attempts < step.MaxAttempts() && step.MayDefer(attempts, seconds)
    ensures var y := Transitioned(def, x, def.steps[Position(def, x)], c);
      y.status == Waiting && forall next: Call :: c.finishedAt <= next.now ==> RunsAgain(def, x, y, next)
    ensures var y := Transitioned(def, x, def.steps[Position(def, x)], c);
      seconds > 0.0 ==> exists next: Call :: next.now as real < DeferredUntil(c.finishedAt, seconds) && RunsAgain(def, x, y, next)
  {
    var step := def.steps[Position(def, x)];
    var y := Transitioned(def, x, step, c);
    TransitionCounts(def, x, step, c);
    forall next: Call | c.finishedAt <= next.now ensures RunsAgain(def, x, y, next) {
      TransitionCounts(def, y, step, next);
    }
    if seconds > 0.0 {
      var next := c.(now := c.finishedAt);
      assert next.now as real < DeferredUntil(c.finishedAt, seconds);
      assert RunsAgain(def, x, y, next);
    }
  }

  /** The resume advances, and the step's second attempt after x is on record. */
  ghost predicate RunsAgain(def: WorkflowDefinition, x: Execution, y: Execution, next: Call)
    requires Positioned(def, x)
  {
    && Resumed(def, y, next) == Advanced(def, y, next) && Advanced(def, y, next).Ok?
    && Attempts(Advanced(def, y, next).value, x.currentStep.value) == Attempts(x, x.currentStep.value) + 2
  }
}
