/** What one resume does, position by position: whether the step runs, and where its answer leads. */
module WorkflowResumes {
  import opened Common
  import opened WorkflowDefinitions
  import opened WorkflowRunner
  import opened WorkflowRuns
  import Backoff

  /** The execution is under way at the step at position i. */
  ghost predicate UnderWayAt(def: WorkflowDefinition, x: Execution, i: nat) {
    && def.DistinctNames() && i < |def.steps| && x.currentStep == Some(def.steps[i].name)
    && (x.status == Running || x.status == Waiting)
  }

  /** The current step has a wait on record that is not over. */
  predicate TooEarly(x: Execution, name: string, now: int) {
    && x.status == Waiting && name in x.stepStates
    && x.stepStates[name].waitUntil.Some? && now < x.stepStates[name].waitUntil.value
  }

  lemma StepFound(def: WorkflowDefinition, i: nat)
    requires def.DistinctNames() && i < |def.steps|
    ensures def.IndexOf(def.steps[i].name) == Some(i) && def.StepNamed(def.steps[i].name) == Some(def.steps[i])
  {
  }

  /** A resume is refused exactly when the execution is not under way at a step of the definition. */
  lemma ResumeRefusedIff(def: WorkflowDefinition, x: Execution, c: Call)
    requires def.DistinctNames()
    ensures Resumed(def, x, c).Err? <==> forall i: nat :: !UnderWayAt(def, x, i)
    ensures Resumed(def, x, c) == Err(NotResumable(x.status)) <==> x.status !in {Running, Waiting}
  {
    if Resumed(def, x, c).Ok? {
      assert UnderWayAt(def, x, def.IndexOf(x.currentStep.value).value);
    }
    forall i: nat | UnderWayAt(def, x, i) ensures Resumed(def, x, c).Ok? {
      StepFound(def, i);
    }
  }

  /** Too early, a resume changes nothing. Otherwise it executes the current step once, and no other. */
  lemma ResumeExecutesIff(def: WorkflowDefinition, x: Execution, c: Call, i: nat)
    requires UnderWayAt(def, x, i)
    ensures var name := def.steps[i].name; var r := Resumed(def, x, c);
      && r.Ok?
      && (if TooEarly(x, name, c.now) then r.value == x else Attempts(r.value, name) == Attempts(x, name) + 1)
      && forall other :: other != name ==> Attempts(r.value, other) == Attempts(x, other)
  {
    StepFound(def, i);
    TransitionCounts(def, x, def.steps[i], c);
  }

  /** A step that succeeded or was skipped leads to the step it names, wherever that stands; to the end if it names none;
      and without a name to the next position. */
  lemma ResumeLeads(def: WorkflowDefinition, x: Execution, c: Call, i: nat)
    requires UnderWayAt(def, x, i) && !TooEarly(x, def.steps[i].name, c.now)
    requires c.outcome.Returned? && c.outcome.result.status in {StepSucceeded, StepSkipped}
    ensures var branch := c.outcome.result.nextStepOverride; var r := Resumed(def, x, c);
      && r.Ok?
      && (branch.Some? && branch.value != "" ==>
            && (forall j: nat :: j < |def.steps| && def.steps[j].name == branch.value ==> MovesTo(x, r.value, def.steps[j].name))
            && ((forall j: nat :: j < |def.steps| ==> def.steps[j].name != branch.value) ==> Completes(x, r.value, c)))
      && (branch.None? || branch.value == "" ==>
            if i + 1 < |def.steps| then MovesTo(x, r.value, def.steps[i + 1].name) else Completes(x, r.value, c))
  {
    StepFound(def, i);
    TransitionLeads(def, x, def.steps[i], c);
    var a := TryOf(def.steps[i].name, c);
    assert forall k :: FirstAt(def, a.name, k) ==> k == i;
  }

  predicate MovesTo(x: Execution, y: Execution, name: string) {
    y.status == Running && y.currentStep == Some(name) && y.completedAt == x.completedAt
  }

  predicate Completes(x: Execution, y: Execution, c: Call) {
    y.status == Succeeded && y.currentStep == x.currentStep && y.completedAt == Some(c.finishedAt)
  }

  /** A step that asks to wait stays current, with the time it asked for on record. */
  lemma ResumeWaits(def: WorkflowDefinition, x: Execution, c: Call, i: nat)
    requires UnderWayAt(def, x, i) && !TooEarly(x, def.steps[i].name, c.now)
    requires c.outcome.Returned? && c.outcome.result.status == StepWaiting
    ensures var r := Resumed(def, x, c);
      && r.Ok? && r.value.status == Waiting && r.value.currentStep == x.currentStep && r.value.completedAt == x.completedAt
      && def.steps[i].name in r.value.stepStates
      && r.value.stepStates[def.steps[i].name].waitUntil == c.outcome.result.waitUntil
  {
    StepFound(def, i);
  }

  // ---- Failure ----

  lemma {:induction false} EntriesAt(def: WorkflowDefinition, plan: seq<nat>, raises: set<nat>, a: nat)
    requires forall b :: 0 <= b < |plan| ==> plan[b] < |def.steps|
    requires a < |plan|
    ensures |EntriesFor(def, plan, raises)| == |plan|
    ensures EntriesFor(def, plan, raises)[a] == CompensationEntry(def.steps[plan[a]].name, plan[a] !in raises)
  {
    if a > 0 {
      EntriesAt(def, plan[1..], raises, a - 1);
    } else if |plan| > 1 {
      EntriesAt(def, plan[1..], raises, 0);
    }
  }

  /** Each entry of the log says of its step whether its compensation raised. */
  ghost predicate TellsWhatRaised(def: WorkflowDefinition, log: seq<CompensationEntry>, raises: set<nat>) {
    forall a, k: nat :: 0 <= a < |log| && k < |def.steps| && def.steps[k].name == log[a].step ==>
      (log[a].succeeded <==> k !in raises)
  }

  lemma RollbackTellsWhatRaised(def: WorkflowDefinition, name: string, raises: set<nat>)
    requires def.DistinctNames()
    requires forall b :: 0 <= b < |def.CompensationPlan(name)| ==> def.CompensationPlan(name)[b] < |def.steps|
    ensures TellsWhatRaised(def, EntriesFor(def, def.CompensationPlan(name), raises), raises)
  {
    var plan := def.CompensationPlan(name);
    var log := EntriesFor(def, plan, raises);
    EntriesNamePlan(def, plan, raises);
    forall a, k: nat | 0 <= a < |log| && k < |def.steps| && def.steps[k].name == log[a].step
      ensures log[a].succeeded <==> k !in raises
    {
      PlanCount(def, plan, raises);
      EntriesAt(def, plan, raises, a);
      assert k == plan[a];
    }
  }

  lemma {:induction false} PlanCount(def: WorkflowDefinition, plan: seq<nat>, raises: set<nat>)
    requires forall b :: 0 <= b < |plan| ==> plan[b] < |def.steps|
    ensures |EntriesFor(def, plan, raises)| == |plan|
  {
    if plan != [] {
      PlanCount(def, plan[1..], raises);
    }
  }

  function AttemptsAllowed(step: WorkflowStep): nat {
    if step.retryPolicy.Some? then step.retryPolicy.value.maxAttempts else 3
  }

  /** The delay that is logged grows from the policy's base: one step of the multiplier for each attempt after the first,
      up to its cap. Without a backoff policy it is five seconds. */
  lemma DeferredDelayIs(step: WorkflowStep, attempts: nat, seconds: real)
    requires attempts >= 1 && step.MayDefer(attempts, seconds)
    ensures step.retryPolicy.None? || step.retryPolicy.value.backoff.None? ==> seconds == 5.0
    ensures step.retryPolicy.Some? && step.retryPolicy.value.backoff.Some? ==>
      var p := step.retryPolicy.value.backoff.value;
      var grown := p.base * Backoff.Power(p.multiplier, attempts - 1);
      var capped := if p.max < grown then p.max else grown;
      if p.jitter then 0.0 <= seconds <= capped else seconds == capped
  {
  }

  /** A step that fails or raises waits for a retry, due when it failed, while it has had fewer attempts than allowed. Then
      the execution fails with its error, and the log tells what was compensated and what of it raised. */
  lemma ResumeFails(def: WorkflowDefinition, x: Execution, c: Call, i: nat)
    requires UnderWayAt(def, x, i) && !TooEarly(x, def.steps[i].name, c.now) && x.compensationLog == []
    requires c.outcome.Raised? || c.outcome.result.status == StepFailed
    ensures var name := def.steps[i].name; var r := Resumed(def, x, c);
      && r.Ok? && r.value.currentStep == x.currentStep
      && if Attempts(x, name) + 1 < AttemptsAllowed(def.steps[i]) then
           && r.value.status == Waiting && r.value.completedAt == x.completedAt && r.value.compensationLog == []
           && name in r.value.stepStates && r.value.stepStates[name].waitUntil == Some(c.finishedAt)
         else
           && r.value.status == Failed && r.value.completedAt == Some(c.finishedAt)
           && r.value.error == (if c.outcome.Raised? then Some(c.outcome.error) else c.outcome.result.error)
           && LogNames(r.value.compensationLog) == RollbackNames(def.steps, i + 1)
           && TellsWhatRaised(def, r.value.compensationLog, c.compensateRaises)
  {
    var step := def.steps[i];
    StepFound(def, i);
    TransitionFails(def, x, step, c);
    PlanInRange(def, step.name);
    RollbackTellsWhatRaised(def, step.name, c.compensateRaises);
    var entries := EntriesFor(def, def.CompensationPlan(step.name), c.compensateRaises);
    assert [] + entries == entries;
  }

  /** In every run, the call that fails the execution leaves its error, its time, and a log that tells what raised. */
  lemma FailureIsRecorded(def: WorkflowDefinition, calls: seq<Call>, c: Call)
    requires def.steps != [] && def.DistinctNames()
    requires Run(def, calls).x.status != Failed && Run(def, calls + [c]).x.status == Failed
    ensures var x := Run(def, calls + [c]).x;
      && x.error == (if c.outcome.Raised? then Some(c.outcome.error) else c.outcome.result.error)
      && x.completedAt == Some(c.finishedAt) && TellsWhatRaised(def, x.compensationLog, c.compensateRaises)
  {
    assert (calls + [c])[..|calls|] == calls;
    RunIsSound(def, calls);
    var x := Run(def, calls).x;
    var i := def.IndexOf(x.currentStep.value).value;
    assert UnderWayAt(def, x, i);
    if c.outcome.Returned? && c.outcome.result.status in {StepSucceeded, StepSkipped} {
      ResumeLeads(def, x, c, i);
    } else if c.outcome.Returned? && c.outcome.result.status == StepWaiting {
      ResumeWaits(def, x, c, i);
    } else {
      ResumeFails(def, x, c, i);
    }
  }
}
