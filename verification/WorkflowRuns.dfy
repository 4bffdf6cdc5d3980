/** What holds of every run of a workflow that is started and then resumed any number of times. */
module WorkflowRuns {
  import opened Common
  import opened WorkflowDefinitions
  import opened WorkflowRunner

  /** One execution of a step, as an observer of the run sees it. */
  datatype Try = Try(name: string, status: StepStatus, at: int, waitUntil: Option<int>, branch: Option<string>)

  function TryOf(name: string, c: Call): Try {
    var result := ResultOf(c.outcome);
    Try(name, result.status, c.now, result.waitUntil, result.nextStepOverride)
  }

  /** The record, the executions so far, and the resumes that came too early to do anything. */
  datatype Trace = Trace(x: Execution, tries: seq<Try>, stutters: nat)

  function Observe(def: WorkflowDefinition, t: Trace, c: Call): Trace {
    match Resumed(def, t.x, c)
    case Err(_) => t
    case Ok(after) =>
      if StillWaiting(t.x, c.now) then t.(stutters := t.stutters + 1)
      else Trace(after, t.tries + [TryOf(t.x.currentStep.value, c)], t.stutters)
  }

  /** The run that starts the workflow and resumes it with each call in turn; a call that is refused changes nothing. */
  function Run(def: WorkflowDefinition, calls: seq<Call>): Trace
    requires def.steps != []
  {
    if calls == [] then Trace(Started(def).value, [], 0)
    else Observe(def, Run(def, calls[..|calls| - 1]), Last(calls))
  }

  function TriesOf(tries: seq<Try>, name: string): nat {
    if tries == [] then 0
    else TriesOf(tries[..|tries| - 1], name) + if Last(tries).name == name then 1 else 0
  }

  function SucceededNames(tries: seq<Try>): seq<string> {
    if tries == [] then []
    else SucceededNames(tries[..|tries| - 1]) + if Last(tries).status == StepSucceeded then [Last(tries).name] else []
  }

  /** Executions after which the step itself asked to wait. */
  function Waits(tries: seq<Try>): nat {
    if tries == [] then 0
    else Waits(tries[..|tries| - 1]) + if Last(tries).status == StepWaiting then 1 else 0
  }

  function LogNames(log: seq<CompensationEntry>): (r: seq<string>)
    ensures |r| == |log|
  {
    if log == [] then [] else [log[0].step] + LogNames(log[1..])
  }

  function NamesAt(steps: seq<WorkflowStep>, plan: seq<nat>): seq<string>
    requires forall a :: 0 <= a < |plan| ==> plan[a] < |steps|
  {
    if plan == [] then [] else [steps[plan[0]].name] + NamesAt(steps, plan[1..])
  }

  /** The compensating steps among the first end ones, by name, last one first. */
  function RollbackNames(steps: seq<WorkflowStep>, end: nat): seq<string>
    requires end <= |steps|
  {
    if end == 0 then []
    else if steps[end - 1].compensating then [steps[end - 1].name] + RollbackNames(steps, end - 1)
    else RollbackNames(steps, end - 1)
  }

  ghost predicate FirstAt(def: WorkflowDefinition, name: string, i: int) {
    0 <= i < |def.steps| && def.steps[i].name == name && forall j :: 0 <= j < i ==> def.steps[j].name != name
  }

  /** Where a step that succeeded or was skipped leads: to the step it names, to the end if there is none of that name, and
      without a name to the step at the next position, or the end. */
  ghost predicate LeadsTo(def: WorkflowDefinition, a: Try, next: Option<string>) {
    if a.branch.Some? && a.branch.value != "" then
      next == if exists i :: 0 <= i < |def.steps| && def.steps[i].name == a.branch.value then a.branch else None
    else
      exists i :: FirstAt(def, a.name, i) && next == if i + 1 < |def.steps| then Some(def.steps[i + 1].name) else None
  }

  /** A retried or waiting step runs next, a waiting one not before the time it asked for, and any other is followed by
      the step it leads to. */
  ghost predicate Follows(def: WorkflowDefinition, a: Try, b: Try) {
    && (a.status == StepWaiting || a.status == StepFailed ==> b.name == a.name)
    && (a.status == StepWaiting && a.waitUntil.Some? ==> a.waitUntil.value <= b.at)
    && (a.status == StepSucceeded || a.status == StepSkipped ==> LeadsTo(def, a, Some(b.name)))
  }

  ghost predicate InOrder(def: WorkflowDefinition, tries: seq<Try>) {
    && (tries != [] ==> def.steps != [] && tries[0].name == def.steps[0].name)
    && forall i :: 0 <= i < |tries| - 1 ==> Follows(def, tries[i], tries[i + 1])
  }

  /** The last execution got past its step, and led here. */
  ghost predicate LedTo(def: WorkflowDefinition, t: Trace, next: Option<string>) {
    && t.tries != [] && (Last(t.tries).status == StepSucceeded || Last(t.tries).status == StepSkipped)
    && LeadsTo(def, Last(t.tries), next)
  }

  /** The last execution was of the current step, and it did not get past it. */
  ghost predicate StuckAtCurrent(t: Trace) {
    && t.tries != [] && t.x.currentStep == Some(Last(t.tries).name)
    && (Last(t.tries).status == StepWaiting || Last(t.tries).status == StepFailed)
    && (Last(t.tries).status == StepWaiting ==> RecordedWait(t.x, Last(t.tries).name) == Last(t.tries).waitUntil)
  }

  ghost predicate ExhaustedAndCompensated(def: WorkflowDefinition, t: Trace)
    requires t.x.currentStep.Some? && def.IndexOf(t.x.currentStep.value).Some?
  {
    var k := def.IndexOf(t.x.currentStep.value).value;
    && StuckAtCurrent(t) && Last(t.tries).status == StepFailed
    && Attempts(t.x, def.steps[k].name) >= def.steps[k].MaxAttempts()
    && LogNames(t.x.compensationLog) == RollbackNames(def.steps, k + 1)
  }

  /** The record tells what happened. */
  ghost predicate Faithful(t: Trace) {
    && t.x.completedSteps == SucceededNames(t.tries)
    && (forall name :: Attempts(t.x, name) == TriesOf(t.tries, name))
  }

  ghost predicate Consistent(def: WorkflowDefinition, t: Trace) {
    && def.steps != []
    && t.x.currentStep.Some? && def.IndexOf(t.x.currentStep.value).Some?
    && (t.x.status == Running || t.x.status == Waiting || Terminal(t.x))
    && (t.x.completedAt.Some? <==> Terminal(t.x))
    && (t.x.status == Running ==>
          if t.tries == [] then t.x.currentStep == Some(def.steps[0].name) else LedTo(def, t, t.x.currentStep))
    && (t.x.status == Succeeded ==> LedTo(def, t, None))
    && (t.x.status == Waiting ==> StuckAtCurrent(t))
    && (if t.x.status == Failed then ExhaustedAndCompensated(def, t) else t.x.compensationLog == [])
  }

  /** The invariant of every reachable state. */
  ghost predicate Sound(def: WorkflowDefinition, t: Trace) {
    Faithful(t) && Consistent(def, t) && InOrder(def, t.tries)
  }

  lemma {:induction false} EntriesNamePlan(def: WorkflowDefinition, plan: seq<nat>, raises: set<nat>)
    requires forall a :: 0 <= a < |plan| ==> plan[a] < |def.steps|
    ensures LogNames(EntriesFor(def, plan, raises)) == NamesAt(def.steps, plan)
  {
    if plan != [] {
      EntriesNamePlan(def, plan[1..], raises);
      assert EntriesFor(def, plan, raises)[1..] == EntriesFor(def, plan[1..], raises);
    }
  }

  lemma {:induction false} PlanNamesRollback(steps: seq<WorkflowStep>, end: nat)
    requires end <= |steps|
    requires forall a :: 0 <= a < |CompensatingIndices(steps, end)| ==> CompensatingIndices(steps, end)[a] < |steps|
    ensures NamesAt(steps, CompensatingIndices(steps, end)) == RollbackNames(steps, end)
  {
    if end > 0 {
      CompensatingIndicesExact(steps, end - 1);
      PlanNamesRollback(steps, end - 1);
      var plan := CompensatingIndices(steps, end);
      if steps[end - 1].compensating {
        assert plan[1..] == CompensatingIndices(steps, end - 1);
      }
    }
  }

  /** One execution of the current step: what the record then counts, lists and points to. */
  lemma TransitionCounts(def: WorkflowDefinition, x: Execution, step: WorkflowStep, c: Call)
    ensures var y := Transitioned(def, x, step, c);
      && Attempts(y, step.name) == Attempts(x, step.name) + 1
      && step.name in y.stepStates && y.stepStates[step.name].status == Some(ResultOf(c.outcome).status)
      && (forall name :: name != step.name ==>
            (name in y.stepStates <==> name in x.stepStates) && (name in x.stepStates ==> y.stepStates[name] == x.stepStates[name]))
      && y.completedSteps == x.completedSteps + if ResultOf(c.outcome).status == StepSucceeded then [step.name] else []
  {
  }

  lemma TransitionFails(def: WorkflowDefinition, x: Execution, step: WorkflowStep, c: Call)
    requires def.StepNamed(step.name) == Some(step)
    requires ResultOf(c.outcome).status == StepFailed && x.compensationLog == []
    ensures var y := Transitioned(def, x, step, c); var k := def.IndexOf(step.name).value;
      && y.currentStep == x.currentStep
      && (Attempts(x, step.name) + 1 < step.MaxAttempts() ==>
            y.status == Waiting && y.completedAt == x.completedAt && y.compensationLog == [])
      && (Attempts(x, step.name) + 1 >= step.MaxAttempts() ==>
            y.status == Failed && y.completedAt.Some? && LogNames(y.compensationLog) == RollbackNames(def.steps, k + 1))
  {
    var k := def.IndexOf(step.name).value;
    PlanInRange(def, step.name);
    EntriesNamePlan(def, def.CompensationPlan(step.name), c.compensateRaises);
    PlanNamesRollback(def.steps, k + 1);
    var entries := EntriesFor(def, def.CompensationPlan(step.name), c.compensateRaises);
    assert [] + entries == entries;
  }

  lemma FirstIndexIsFirst(def: WorkflowDefinition, name: string)
    ensures def.IndexOf(name).Some? ==> FirstAt(def, name, def.IndexOf(name).value)
    ensures def.IndexOf(name).None? ==> forall i :: 0 <= i < |def.steps| ==> def.steps[i].name != name
  {
  }

  lemma TransitionLeads(def: WorkflowDefinition, x: Execution, step: WorkflowStep, c: Call)
    requires def.StepNamed(step.name) == Some(step)
    requires ResultOf(c.outcome).status == StepSucceeded || ResultOf(c.outcome).status == StepSkipped
    ensures var y := Transitioned(def, x, step, c);
      || (y.status == Running && LeadsTo(def, TryOf(step.name, c), y.currentStep) && y.currentStep.Some?
          && def.IndexOf(y.currentStep.value).Some? && y.completedAt == x.completedAt)
      || (y.status == Succeeded && LeadsTo(def, TryOf(step.name, c), None) && y.completedAt == Some(c.finishedAt)
          && y.currentStep == x.currentStep)
  {
    FirstIndexIsFirst(def, step.name);
    var branch := ResultOf(c.outcome).nextStepOverride;
    if branch.Some? && branch.value != "" {
      FirstIndexIsFirst(def, branch.value);
    }
    var next := Successor(def, step.name, ResultOf(c.outcome));
    if next.Some? {
      FirstIndexIsFirst(def, next.value.name);
    }
  }

  lemma InOrderExtends(def: WorkflowDefinition, tries: seq<Try>, next: Try)
    requires InOrder(def, tries)
    requires if tries == [] then def.steps != [] && next.name == def.steps[0].name else Follows(def, Last(tries), next)
    ensures InOrder(def, tries + [next])
  {
    forall i | 0 <= i < |tries| ensures Follows(def, (tries + [next])[i], (tries + [next])[i + 1]) {
      if i < |tries| - 1 {
        assert Follows(def, tries[i], tries[i + 1]);
      }
    }
  }

  lemma CountsExtend(tries: seq<Try>, next: Try)
    ensures SucceededNames(tries + [next])
         == SucceededNames(tries) + if next.status == StepSucceeded then [next.name] else []
    ensures Waits(tries + [next]) == Waits(tries) + if next.status == StepWaiting then 1 else 0
    ensures forall n :: TriesOf(tries + [next], n) == TriesOf(tries, n) + if next.name == n then 1 else 0
  {
    assert (tries + [next])[..|tries|] == tries;
  }

  /** The trace after an execution of the current step. */
  function Extended(def: WorkflowDefinition, t: Trace, step: WorkflowStep, c: Call): Trace {
    Trace(Transitioned(def, t.x, step, c), t.tries + [TryOf(step.name, c)], t.stutters)
  }

  lemma ExtendedIsFaithful(def: WorkflowDefinition, t: Trace, step: WorkflowStep, c: Call)
    requires Faithful(t)
    ensures Faithful(Extended(def, t, step, c))
  {
    TransitionCounts(def, t.x, step, c);
    CountsExtend(t.tries, Last(Extended(def, t, step, c).tries));
  }

  lemma ExtendedIsConsistent(def: WorkflowDefinition, t: Trace, step: WorkflowStep, c: Call)
    requires Consistent(def, t) && !Terminal(t.x) && def.StepNamed(t.x.currentStep.value) == Some(step)
    ensures Consistent(def, Extended(def, t, step, c))
  {
    TransitionCounts(def, t.x, step, c);
    if ResultOf(c.outcome).status == StepFailed {
      TransitionFails(def, t.x, step, c);
    } else if ResultOf(c.outcome).status != StepWaiting {
      TransitionLeads(def, t.x, step, c);
    }
  }

  lemma ObserveKeepsSound(def: WorkflowDefinition, t: Trace, c: Call)
    requires Sound(def, t)
    ensures Sound(def, Observe(def, t, c))
  {
    if !Terminal(t.x) && !StillWaiting(t.x, c.now) {
      var step := def.StepNamed(t.x.currentStep.value).value;
      ExtendedIsFaithful(def, t, step, c);
      ExtendedIsConsistent(def, t, step, c);
      InOrderExtends(def, t.tries, Last(Extended(def, t, step, c).tries));
    }
  }

  /** Every state that start and any resumes can reach satisfies the invariant, whatever the steps do. */
  lemma {:induction false} RunIsSound(def: WorkflowDefinition, calls: seq<Call>)
    requires def.steps != []
    ensures Sound(def, Run(def, calls))
  {
    if calls != [] {
      RunIsSound(def, calls[..|calls| - 1]);
      ObserveKeepsSound(def, Run(def, calls[..|calls| - 1]), Last(calls));
    }
  }
}
