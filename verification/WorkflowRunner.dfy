/** The workflow runner: start, execute, advance, retry, compensate and resume.

    The functions say what one call does to the value of an execution record; the classes below them
    are the record and the runner themselves, updated in place. User code is an oracle: what a step
    returns or raises, and which compensations raise, arrive with the call. */
module WorkflowRunner {
  import opened Common
  import opened WorkflowDefinitions
  import Backoff

  datatype ExecutionStatus = Pending | Running | Waiting | Succeeded | Failed | Canceled
  datatype StepStatus = StepSucceeded | StepFailed | StepWaiting | StepSkipped

  /** What is on record of a step: no status when only a wait was ever recorded. */
  datatype StepState = StepState(status: Option<StepStatus>, attemptCount: nat, waitUntil: Option<int>)

  const NO_STATE := StepState(None, 0, None)

  datatype StepResult = StepResult(
    status: StepStatus, waitUntil: Option<int>, nextStepOverride: Option<string>, error: Option<string>)

  datatype StepOutcome = Returned(result: StepResult) | Raised(error: string)

  datatype CompensationEntry = CompensationEntry(step: string, succeeded: bool)

  datatype Execution = Execution(
    status: ExecutionStatus,
    currentStep: Option<string>,
    completedAt: Option<int>,
    error: Option<string>,
    stepStates: map<string, StepState>,
    completedSteps: seq<string>,
    compensationLog: seq<CompensationEntry>)

  datatype WorkflowError = NoSteps | NotResumable(status: ExecutionStatus) | NoCurrentStep | StepNotFound(name: string)

  /** One call of resume or advance: the clock when it looks at the record, the clock when the step is over, what the
      step does, the positions of the steps whose compensation raises, and where in its range a random delay falls. */
  datatype Call = Call(
    now: int, finishedAt: int, outcome: StepOutcome, compensateRaises: set<nat>, draw: Backoff.Share)

  predicate Terminal(x: Execution) {
    x.status == Succeeded || x.status == Failed
  }

  /** How often the record says a step was tried; a step without a state was never tried. */
  function Attempts(x: Execution, name: string): nat {
    if name in x.stepStates then x.stepStates[name].attemptCount else 0
  }

  function StateOf(x: Execution, name: string): StepState {
    if name in x.stepStates then x.stepStates[name] else NO_STATE
  }

  function RecordedWait(x: Execution, name: string): Option<int> {
    if name in x.stepStates then x.stepStates[name].waitUntil else None
  }

  function Started(def: WorkflowDefinition): Result<Execution, WorkflowError> {
    if def.steps == [] then Err(NoSteps)
    else Ok(Execution(Running, Some(def.steps[0].name), None, None, map[], [], []))
  }

  /** What the runner takes a step to have answered: an exception is a failure. */
  function ResultOf(outcome: StepOutcome): StepResult {
    match outcome
    case Returned(result) => result
    case Raised(error) => StepResult(StepFailed, None, None, Some(error))
  }

  /** The step's state is merged into the old one, so a step that raises keeps an earlier wait time. */
  function StateAfter(x: Execution, name: string, outcome: StepOutcome): StepState {
    StepState(
      Some(ResultOf(outcome).status),
      Attempts(x, name) + 1,
      if outcome.Returned? then outcome.result.waitUntil else RecordedWait(x, name))
  }

  function Executed(x: Execution, name: string, outcome: StepOutcome): Execution {
    x.(stepStates := x.stepStates[name := StateAfter(x, name, outcome)])
  }

  /** An empty override counts as none; one that names no step leads nowhere. */
  function Successor(def: WorkflowDefinition, name: string, result: StepResult): Option<WorkflowStep> {
    if result.nextStepOverride.Some? && result.nextStepOverride.value != ""
    then def.StepNamed(result.nextStepOverride.value)
    else def.StepAfter(name)
  }

  function MovedOn(x: Execution, next: Option<WorkflowStep>, finishedAt: int): Execution {
    match next
    case Some(step) => x.(currentStep := Some(step.name), status := Running)
    case None => x.(status := Succeeded, completedAt := Some(finishedAt))
  }

  /** The log entries of one compensation pass over the given positions. */
  function EntriesFor(def: WorkflowDefinition, plan: seq<nat>, raises: set<nat>): seq<CompensationEntry>
    requires forall a :: 0 <= a < |plan| ==> plan[a] < |def.steps|
  {
    if plan == [] then []
    else [CompensationEntry(def.steps[plan[0]].name, plan[0] !in raises)] + EntriesFor(def, plan[1..], raises)
  }

  lemma PlanInRange(def: WorkflowDefinition, name: string)
    ensures forall a :: 0 <= a < |def.CompensationPlan(name)| ==> def.CompensationPlan(name)[a] < |def.steps|
  {
    if def.IndexOf(name).Some? {
      CompensatingIndicesExact(def.steps, def.IndexOf(name).value + 1);
    }
  }

  function Compensated(def: WorkflowDefinition, x: Execution, failed: string, raises: set<nat>): Execution {
    PlanInRange(def, failed);
    x.(compensationLog := x.compensationLog + EntriesFor(def, def.CompensationPlan(failed), raises))
  }

  /** A failed step waits for a retry, dated now, or is compensated and ends the workflow. */
  function AfterFailure(def: WorkflowDefinition, x: Execution, step: WorkflowStep, result: StepResult, c: Call): Execution
  {
    if Attempts(x, step.name) < step.MaxAttempts() then
      x.(stepStates := x.stepStates[step.name := StateOf(x, step.name).(waitUntil := Some(c.finishedAt))],
         status := Waiting)
    else
      Compensated(def, x, step.name, c.compensateRaises).(
        status := Failed, error := result.error, completedAt := Some(c.finishedAt))
  }

  /** The record after the step has answered. */
  function Transitioned(def: WorkflowDefinition, x: Execution, step: WorkflowStep, c: Call): Execution {
    var y := Executed(x, step.name, c.outcome);
    var result := ResultOf(c.outcome);
    match result.status
    case StepSucceeded =>
      MovedOn(y.(completedSteps := y.completedSteps + [step.name]), Successor(def, step.name, result), c.finishedAt)
    case StepWaiting => y.(status := Waiting)
    case StepSkipped => MovedOn(y, Successor(def, step.name, result), c.finishedAt)
    case StepFailed => AfterFailure(def, y, step, result, c)
  }

  function Advanced(def: WorkflowDefinition, x: Execution, c: Call): Result<Execution, WorkflowError> {
    if x.currentStep.None? then Err(NoCurrentStep)
    else
      match def.StepNamed(x.currentStep.value)
      case None => Err(StepNotFound(x.currentStep.value))
      case Some(step) => Ok(Transitioned(def, x, step, c))
  }

  /** The current step asked to wait and its time has not come. */
  predicate StillWaiting(x: Execution, now: int) {
    && x.status == Waiting && x.currentStep.Some?
    && RecordedWait(x, x.currentStep.value).Some? && now < RecordedWait(x, x.currentStep.value).value
  }

  function Resumed(def: WorkflowDefinition, x: Execution, c: Call): Result<Execution, WorkflowError> {
    if x.status != Running && x.status != Waiting then Err(NotResumable(x.status))
    else if x.currentStep.None? then Err(NoCurrentStep)
    else if def.StepNamed(x.currentStep.value).None? then Err(StepNotFound(x.currentStep.value))
    else if StillWaiting(x, c.now) then Ok(x)
    else Advanced(def, x, c)
  }

  /** The execution record. */
  class WorkflowExecution {
    var status: ExecutionStatus
    var currentStep: Option<string>
    var completedAt: Option<int>
    var error: Option<string>
    var stepStates: map<string, StepState>
    var completedSteps: seq<string>
    var compensationLog: seq<CompensationEntry>

    function View(): Execution
      reads this
    {
      Execution(status, currentStep, completedAt, error, stepStates, completedSteps, compensationLog)
    }

    constructor (firstStep: string)
      ensures View() == Execution(Running, Some(firstStep), None, None, map[], [], [])
    {
      status, currentStep, completedAt, error := Running, Some(firstStep), None, None;
      stepStates, completedSteps, compensationLog := map[], [], [];
    }
  }

  class Runner {
    const definition: WorkflowDefinition

    constructor (definition: WorkflowDefinition)
      ensures this.definition == definition
    {
      this.definition := definition;
    }

    method Start() returns (r: Result<WorkflowExecution, WorkflowError>)
      ensures r.Ok? == Started(definition).Ok?
      ensures r.Ok? ==> fresh(r.value) && Started(definition) == Ok(r.value.View())
      ensures r.Err? ==> Started(definition) == Err(r.error)
      ensures if definition.steps == [] then r == Err(NoSteps)
              else r.Ok? && r.value.View() == Execution(Running, Some(definition.steps[0].name), None, None, map[], [], [])
    {
      if definition.steps == [] {
        return Err(NoSteps);
      }
      var execution := new WorkflowExecution(definition.steps[0].name);
      return Ok(execution);
    }

    method ExecuteStep(execution: WorkflowExecution, step: WorkflowStep, c: Call) returns (result: StepResult)
      modifies execution`stepStates
      ensures result == ResultOf(c.outcome)
      ensures execution.View() == Executed(old(execution.View()), step.name, c.outcome)
    {
      var known := if step.name in execution.stepStates
                   then execution.stepStates[step.name] else NO_STATE;
      var attempt := known.attemptCount + 1;
      // The step is recorded as started, and as succeeded, before it has answered.
      var started := known.(status := Some(StepSucceeded), attemptCount := attempt);
      execution.stepStates := execution.stepStates[step.name := started];
      match c.outcome
      case Returned(answer) =>
        result := answer;
        execution.stepStates := execution.stepStates[step.name :=
          started.(status := Some(answer.status), attemptCount := attempt, waitUntil := answer.waitUntil)];
      case Raised(error) =>
        result := StepResult(StepFailed, None, None, Some(error));
        execution.stepStates := execution.stepStates[step.name :=
          started.(status := Some(StepFailed), attemptCount := attempt)];
    }

    method Compensate(execution: WorkflowExecution, failedStep: string, raises: set<nat>)
      modifies execution`compensationLog
      ensures execution.View() == Compensated(definition, old(execution.View()), failedStep, raises)
    {
      var plan := definition.GetStepsForCompensation(failedStep);
      PlanInRange(definition, failedStep);
      for n := 0 to |plan|
        invariant execution.compensationLog + EntriesFor(definition, plan[n..], raises)
               == old(execution.compensationLog) + EntriesFor(definition, plan, raises)
      {
        var entry := CompensationEntry(definition.steps[plan[n]].name, plan[n] !in raises);
        ghost var later := EntriesFor(definition, plan[n + 1..], raises);
        assert plan[n..][1..] == plan[n + 1..];
        assert execution.compensationLog + ([entry] + later) == (execution.compensationLog + [entry]) + later;
        execution.compensationLog := execution.compensationLog + [entry];
      }
    }

    /** The delay that is computed for a retry goes to the log, which is all that is done with it. */
    method HandleStepFailure(execution: WorkflowExecution, step: WorkflowStep, result: StepResult, c: Call)
      returns (logged: Option<real>)
      modifies execution
      ensures execution.View() == AfterFailure(definition, old(execution.View()), step, result, c)
      ensures var attempts := Attempts(old(execution.View()), step.name);
        if attempts < step.MaxAttempts() then logged.Some? && step.MayDefer(attempts, logged.value) else logged == None
    {
      var state := if step.name in execution.stepStates then execution.stepStates[step.name] else NO_STATE;
      logged := None;
      if state.attemptCount < step.MaxAttempts() {
        var deferSeconds := DEFAULT_DEFER_SECONDS;
        if step.Policy().backoff.Some? {
          deferSeconds := Backoff.DelayForAttempt(step.Policy().backoff.value, state.attemptCount - 1, c.draw);
        }
        logged := Some(deferSeconds);
        execution.stepStates := execution.stepStates[step.name := state.(waitUntil := Some(c.finishedAt))];
        execution.status := Waiting;
      } else {
        Compensate(execution, step.name, c.compensateRaises);
        execution.status := Failed;
        execution.error := result.error;
        execution.completedAt := Some(c.finishedAt);
      }
    }

    method Advance(execution: WorkflowExecution, c: Call) returns (error: Option<WorkflowError>)
      modifies execution
      ensures match Advanced(definition, old(execution.View()), c)
              case Ok(after) => error == None && execution.View() == after
              case Err(e) => error == Some(e) && execution.View() == old(execution.View())
    {
      if execution.currentStep.None? {
        return Some(NoCurrentStep);
      }
      var found := definition.GetStep(execution.currentStep.value);
      if found.None? {
        return Some(StepNotFound(execution.currentStep.value));
      }
      var step := found.value;
      var result := ExecuteStep(execution, step, c);
      match result.status {
        case StepSucceeded =>
          execution.completedSteps := execution.completedSteps + [step.name];
          GoToNextStep(execution, step, result, c);
        case StepWaiting =>
          execution.status := Waiting;
        case StepSkipped =>
          GoToNextStep(execution, step, result, c);
        case StepFailed =>
          var _ := HandleStepFailure(execution, step, result, c);
      }
      error := None;
    }

    /** The branch that advance takes for a succeeded and for a skipped step alike. */
    method GoToNextStep(execution: WorkflowExecution, step: WorkflowStep, result: StepResult, c: Call)
      modifies execution`currentStep, execution`status, execution`completedAt
      ensures execution.View()
           == MovedOn(old(execution.View()), Successor(definition, step.name, result), c.finishedAt)
    {
      var next;
      if result.nextStepOverride.Some? && result.nextStepOverride.value != "" {
        next := definition.GetStep(result.nextStepOverride.value);
      } else {
        next := definition.GetNextStep(step.name);
      }
      if next.Some? {
        execution.currentStep := Some(next.value.name);
        execution.status := Running;
      } else {
        execution.status := Succeeded;
        execution.completedAt := Some(c.finishedAt);
      }
    }

    method Resume(execution: WorkflowExecution, c: Call) returns (error: Option<WorkflowError>)
      modifies execution
      ensures match Resumed(definition, old(execution.View()), c)
              case Ok(after) => error == None && execution.View() == after
              case Err(e) => error == Some(e) && execution.View() == old(execution.View())
    {
      if execution.status != Running && execution.status != Waiting {
        return Some(NotResumable(execution.status));
      }
      if execution.currentStep.None? {
        return Some(NoCurrentStep);
      }
      var found := definition.GetStep(execution.currentStep.value);
      if found.None? {
        return Some(StepNotFound(execution.currentStep.value));
      }
      if execution.status == Waiting && execution.currentStep.value in execution.stepStates {
        var waitUntil := execution.stepStates[execution.currentStep.value].waitUntil;
        if waitUntil.Some? && c.now < waitUntil.value {
          return None;
        }
      }
      error := Advance(execution, c);
    }
  }
}
