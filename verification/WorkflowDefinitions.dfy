/** Workflow definitions: an ordered list of steps, and the lookups the runner makes in it. */
module WorkflowDefinitions {
  import opened Common
  import Backoff

  /** The retry policy's constructor refuses fewer than one attempt. */
  type AttemptLimit = n: nat | 1 <= n witness 1

  datatype RetryPolicy = RetryPolicy(maxAttempts: AttemptLimit, backoff: Option<Backoff.BackoffPolicy>)

  const DEFAULT_RETRY_POLICY := RetryPolicy(3, None)
  const DEFAULT_DEFER_SECONDS := 5.0

  datatype WorkflowStep = WorkflowStep(name: string, retryPolicy: Option<RetryPolicy>, compensating: bool) {
    function Policy(): RetryPolicy {
      match retryPolicy
      case Some(policy) => policy
      case None => DEFAULT_RETRY_POLICY
    }

    function MaxAttempts(): AttemptLimit {
      Policy().maxAttempts
    }

    /** A delay that the policy may compute after so many attempts. */
    predicate MayDefer(attempts: nat, seconds: real) {
      match Policy().backoff
      case None => seconds == DEFAULT_DEFER_SECONDS
      case Some(backoff) => Backoff.MayDelay(backoff, attempts - 1, seconds)
    }
  }

  /** The first position at or after start that holds a step called name. */
  function FirstIndex(steps: seq<WorkflowStep>, name: string, start: nat): (r: Option<nat>)
    requires start <= |steps|
    ensures r.Some? ==> start <= r.value < |steps| && steps[r.value].name == name
    ensures r.Some? ==> forall i :: start <= i < r.value ==> steps[i].name != name
    ensures r.None? ==> forall i :: start <= i < |steps| ==> steps[i].name != name
    decreases |steps| - start
  {
    if start == |steps| then None
    else if steps[start].name == name then Some(start)
    else FirstIndex(steps, name, start + 1)
  }

  /** The compensating steps among steps[..end], the last one first. */
  function CompensatingIndices(steps: seq<WorkflowStep>, end: nat): (r: seq<nat>)
    requires end <= |steps|
  {
    if end == 0 then []
    else if steps[end - 1].compensating then [end - 1] + CompensatingIndices(steps, end - 1)
    else CompensatingIndices(steps, end - 1)
  }

  /** The plan lists exactly the compensating steps of the prefix, each once, in reverse definition order. */
  lemma {:induction false} CompensatingIndicesExact(steps: seq<WorkflowStep>, end: nat)
    requires end <= |steps|
    ensures forall a :: 0 <= a < |CompensatingIndices(steps, end)| ==>
      CompensatingIndices(steps, end)[a] < end && steps[CompensatingIndices(steps, end)[a]].compensating
    ensures forall i: nat :: i < end && steps[i].compensating ==> i in CompensatingIndices(steps, end)
    ensures forall a, b :: 0 <= a < b < |CompensatingIndices(steps, end)| ==>
      CompensatingIndices(steps, end)[a] > CompensatingIndices(steps, end)[b]
  {
    if end > 0 {
      CompensatingIndicesExact(steps, end - 1);
    }
  }

  datatype WorkflowDefinition = WorkflowDefinition(steps: seq<WorkflowStep>) {

    ghost predicate DistinctNames() {
      forall i, j :: 0 <= i < j < |steps| ==> steps[i].name != steps[j].name
    }

    function IndexOf(name: string): (r: Option<nat>)
      ensures r.Some? ==> r.value < |steps| && steps[r.value].name == name
      ensures DistinctNames() ==> forall i :: 0 <= i < |steps| && steps[i].name == name ==> r == Some(i)
    {
      FirstIndex(steps, name, 0)
    }

    /** The step a lookup by name finds. */
    function StepNamed(name: string): Option<WorkflowStep> {
      match IndexOf(name)
      case Some(i) => Some(steps[i])
      case None => None
    }

    function StepAfter(name: string): Option<WorkflowStep> {
      match IndexOf(name)
      case Some(i) => if i + 1 < |steps| then Some(steps[i + 1]) else None
      case None => None
    }

    /** Positions of the steps to compensate when the named one fails for good. */
    function CompensationPlan(upTo: string): seq<nat> {
      match IndexOf(upTo)
      case Some(i) => CompensatingIndices(steps, i + 1)
      case None => []
    }

    method GetStep(name: string) returns (r: Option<WorkflowStep>)
      ensures r == StepNamed(name)
    {
      for i := 0 to |steps|
        invariant IndexOf(name) == FirstIndex(steps, name, i)
      {
        if steps[i].name == name {
          return Some(steps[i]);
        }
      }
      return None;
    }

    method GetStepIndex(name: string) returns (r: Option<nat>)
      ensures r == IndexOf(name)
    {
      for i := 0 to |steps|
        invariant IndexOf(name) == FirstIndex(steps, name, i)
      {
        if steps[i].name == name {
          return Some(i);
        }
      }
      return None;
    }

    method GetNextStep(current: string) returns (r: Option<WorkflowStep>)
      ensures r == StepAfter(current)
    {
      var idx := GetStepIndex(current);
      if idx.None? || idx.value >= |steps| - 1 {
        return None;
      }
      return Some(steps[idx.value + 1]);
    }

    method GetStepsForCompensation(upTo: string) returns (r: seq<nat>)
      ensures r == CompensationPlan(upTo)
    {
      var idx := GetStepIndex(upTo);
      if idx.None? {
        return [];
      }
      r := [];
      var i := idx.value;
      while i >= 0
        invariant -1 <= i <= idx.value
        invariant CompensatingIndices(steps, idx.value + 1) == r + CompensatingIndices(steps, i + 1)
      {
        ghost var rest := CompensatingIndices(steps, i);
        if steps[i].compensating {
          assert r + ([i] + rest) == (r + [i]) + rest;
          r := r + [i];
        }
        i := i - 1;
      }
    }
  }
}
