/** Compensating sagas: run steps, and on failure undo the completed ones, last one first.

    W is the state of the outside world. Steps and actions are arbitrary functions on it, so two flows
    that end in the same world for every W performed the same effects in the same order. */
module Compensation {
  import opened Common

  /** An integration error, any other exception, or success. */
  datatype StepOutcome = Done | Failed(error: string) | Crashed(message: string)

  type Step<!W> = W -> (W, StepOutcome)

  datatype CanOutcome = Can(yes: bool) | CanRaised(message: string)
  datatype ActionResult = ActionResult(success: bool, description: string, detail: Option<string>, error: Option<string>)
  datatype ExecuteOutcome = Executed(result: ActionResult) | ExecuteRaised(message: string)

  datatype Action<!W> = Action(description: string, can: W -> (W, CanOutcome), execute: W -> (W, ExecuteOutcome))

  /** The two flows word the same refusals differently. */
  datatype Wording = Wording(refused: string, raised: string)

  const SAGA_WORDING := Wording("cannot compensate", "error: ")
  const CONTEXT_WORDING := Wording("action cannot compensate", "unexpected error: ")

  datatype SagaOutcome = SagaOutcome(
    completedSteps: nat, totalSteps: nat, success: bool, failure: Option<string>, results: seq<ActionResult>)

  /** One compensation: ask, then execute; an exception from either becomes a failed result. */
  function Undo<W>(action: Action<W>, w: W, wording: Wording): (W, ActionResult) {
    var (asked, can) := action.can(w);
    match can
    case CanRaised(message) =>
      (asked, ActionResult(false, action.description, Some(wording.raised + message), Some(message)))
    case Can(false) => (asked, ActionResult(false, action.description, Some(wording.refused), None))
    case Can(true) =>
      var (acted, executed) := action.execute(asked);
      match executed
      case Executed(result) => (acted, result)
      case ExecuteRaised(message) =>
        (acted, ActionResult(false, action.description, Some(wording.raised + message), Some(message)))
  }

  /** All the actions, the last one first, with results in the order of execution. */
  function UndoAll<W>(actions: seq<Action<W>>, w: W, wording: Wording): (r: (W, seq<ActionResult>))
    ensures |r.1| == |actions|
  {
    if actions == [] then (w, [])
    else
      var (w1, result) := Undo(Last(actions), w, wording);
      var (w2, results) := UndoAll(actions[..|actions| - 1], w1, wording);
      (w2, [result] + results)
  }

  /** The world after steps run until one fails, how many completed, and the failure. */
  function Proceed<W>(steps: seq<Step<W>>, w: W, done: nat): (r: (W, nat, Option<string>))
    requires done <= |steps|
    ensures done <= r.1 <= |steps|
    ensures r.2.None? ==> r.1 == |steps|
    decreases |steps| - done
  {
    if done == |steps| then (w, done, None)
    else
      var (w1, outcome) := steps[done](w);
      match outcome
      case Done => Proceed(steps, w1, done + 1)
      case Failed(error) => (w1, done, Some(error))
      case Crashed(message) => (w1, done, Some(message))
  }

  function Saga<W>(steps: seq<Step<W>>, compensations: seq<Action<W>>, w: W): (W, SagaOutcome)
    requires |steps| == |compensations|
  {
    var (w1, completed, failure) := Proceed(steps, w, 0);
    if failure.None? then (w1, SagaOutcome(completed, |steps|, true, None, []))
    else
      var (w2, results) := UndoAll(compensations[..completed], w1, SAGA_WORDING);
      (w2, SagaOutcome(completed, |steps|, false, failure, Reverse(results)))
  }

  /** The body both loops share. An action executes exactly when it agrees to, and succeeds exactly when it then reports so. */
  method CompensateOne<W>(action: Action<W>, w: W, wording: Wording) returns (after: W, result: ActionResult)
    ensures (after, result) == Undo(action, w, wording)
    ensures after == if action.can(w).1 == Can(true) then action.execute(action.can(w).0).0 else action.can(w).0
    ensures result.success <==>
      action.can(w).1 == Can(true)
      && var executed := action.execute(action.can(w).0).1; executed.Executed? && executed.result.success
    ensures match action.can(w).1
      case CanRaised(message) => result == ActionResult(false, action.description, Some(wording.raised + message), Some(message))
      case Can(false) => result == ActionResult(false, action.description, Some(wording.refused), None)
      case Can(true) => (
        match action.execute(action.can(w).0).1
        case Executed(reported) => result == reported
        case ExecuteRaised(message) =>
          result == ActionResult(false, action.description, Some(wording.raised + message), Some(message)))
  {
    var (asked, can) := action.can(w);
    after := asked;
    if can.CanRaised? {
      result := ActionResult(false, action.description, Some(wording.raised + can.message), Some(can.message));
    } else if !can.yes {
      result := ActionResult(false, action.description, Some(wording.refused), None);
    } else {
      var (acted, executed) := action.execute(asked);
      after := acted;
      match executed
      case Executed(r) => result := r;
      case ExecuteRaised(message) =>
        result := ActionResult(false, action.description, Some(wording.raised + message), Some(message));
    }
  }

  /** The first action is the last one run. */
  lemma {:induction false} UndoAllFirst<W>(action: Action<W>, rest: seq<Action<W>>, w: W, wording: Wording)
    ensures var (w1, results) := UndoAll(rest, w, wording);
      UndoAll([action] + rest, w, wording) == (Undo(action, w1, wording).0, results + [Undo(action, w1, wording).1])
  {
    var all := [action] + rest;
    if rest == [] {
      assert all == [action] && all[..0] == [];
      var result := Undo(action, w, wording).1;
      assert [result] + [] == [] + [result];
    } else {
      var (w1, result) := Undo(Last(rest), w, wording);
      assert Last(all) == Last(rest) && all[..|all| - 1] == [action] + rest[..|rest| - 1];
      UndoAllFirst(action, rest[..|rest| - 1], w1, wording);
      var (w2, results) := UndoAll(rest[..|rest| - 1], w1, wording);
      var first := Undo(action, w2, wording).1;
      assert [result] + (results + [first]) == ([result] + results) + [first];
    }
  }

  lemma UndoAllLast<W>(actions: seq<Action<W>>, w: W, wording: Wording)
    requires actions != []
    ensures var (w1, result) := Undo(Last(actions), w, wording);
      var (w2, results) := UndoAll(actions[..|actions| - 1], w1, wording);
      UndoAll(actions, w, wording) == (w2, [result] + results)
  {
  }

  /** Whatever becomes of the others, each action is tried once, in the world that the later ones left. */
  lemma {:induction false} UndoAllAt<W>(actions: seq<Action<W>>, w: W, wording: Wording, i: nat)
    requires i < |actions|
    ensures UndoAll(actions, w, wording).1[|actions| - 1 - i]
         == Undo(actions[i], UndoAll(actions[i + 1..], w, wording).0, wording).1
  {
    UndoAllLast(actions, w, wording);
    if i < |actions| - 1 {
      var init, rest := actions[..|actions| - 1], actions[i + 1..];
      var w1 := Undo(Last(actions), w, wording).0;
      UndoAllAt(init, w1, wording, i);
      assert init[i + 1..] == rest[..|rest| - 1] && Last(rest) == Last(actions);
      UndoAllLast(rest, w, wording);
    }
  }

  method WithCompensation<W>(steps: seq<Step<W>>, compensations: seq<Action<W>>, start: W)
    returns (w: W, r: Result<SagaOutcome, string>)
    ensures |steps| != |compensations| ==> r.Err? && w == start
    ensures |steps| == |compensations| ==> r.Ok? && (w, r.value) == Saga(steps, compensations, start)
  {
    w := start;
    if |steps| != |compensations| {
      return w, Err("steps and compensations must have the same length");
    }
    var completed := 0;
    var failure: Option<string> := None;
    while completed < |steps| && failure.None?
      invariant completed <= |steps|
      invariant failure.None? ==> Proceed(steps, start, 0) == Proceed(steps, w, completed)
      invariant failure.Some? ==> Proceed(steps, start, 0) == (w, completed, failure)
      decreases |steps| - completed, failure.None?
    {
      var (after, outcome) := steps[completed](w);
      w := after;
      match outcome
      case Done => completed := completed + 1;
      case Failed(error) => failure := Some(error);
      case Crashed(message) => failure := Some(message);
    }
    var results: seq<ActionResult> := [];
    if failure.Some? {
      ghost var broken := w;
      var idx := completed;
      while idx > 0
        invariant 0 <= idx <= completed
        invariant (w, results) == UndoAll(compensations[idx..completed], broken, SAGA_WORDING)
      {
        idx := idx - 1;
        ghost var rest := compensations[idx + 1..completed];
        UndoAllFirst(compensations[idx], rest, broken, SAGA_WORDING);
        assert compensations[idx..completed] == [compensations[idx]] + rest;
        var result;
        w, result := CompensateOne(compensations[idx], w, SAGA_WORDING);
        results := results + [result];
      }
      assert compensations[0..completed] == compensations[..completed];
      results := Reverse(results);
    }
    r := Ok(SagaOutcome(completed, |steps|, failure.None?, failure, results));
  }

  /** The stack of compensations a flow registers as it goes. */
  class CompensationContext<!W> {
    var actions: seq<Action<W>>

    constructor ()
      ensures actions == []
    {
      actions := [];
    }

    method Register(action: Action<W>)
      modifies this
      ensures actions == old(actions) + [action]
    {
      actions := actions + [action];
    }

    method CompensateAll(start: W) returns (w: W, results: seq<ActionResult>)
      ensures (w, results) == UndoAll(actions, start, CONTEXT_WORDING)
    {
      w, results := start, [];
      var idx := |actions|;
      while idx > 0
        invariant 0 <= idx <= |actions|
        invariant (w, results) == UndoAll(actions[idx..], start, CONTEXT_WORDING)
      {
        idx := idx - 1;
        UndoAllFirst(actions[idx], actions[idx + 1..], start, CONTEXT_WORDING);
        assert actions[idx..] == [actions[idx]] + actions[idx + 1..];
        var result;
        w, result := CompensateOne(actions[idx], w, CONTEXT_WORDING);
        results := results + [result];
      }
      assert actions[0..] == actions;
    }
  }

  /** Results that differ in no more than the wording of a refusal. */
  predicate SameButWording(a: ActionResult, b: ActionResult) {
    a.success == b.success && a.description == b.description && a.error == b.error && (a.success ==> a == b)
  }

  lemma {:induction false} WordingIsImmaterial<W>(actions: seq<Action<W>>, w: W, one: Wording, two: Wording)
    ensures UndoAll(actions, w, one).0 == UndoAll(actions, w, two).0
    ensures forall i :: 0 <= i < |actions| ==>
      SameButWording(UndoAll(actions, w, one).1[i], UndoAll(actions, w, two).1[i])
  {
    if actions != [] {
      assert Undo(Last(actions), w, one).0 == Undo(Last(actions), w, two).0;
      WordingIsImmaterial(actions[..|actions| - 1], Undo(Last(actions), w, one).0, one, two);
    }
  }

  lemma ReversedAlike(a: seq<ActionResult>, b: seq<ActionResult>)
    requires |a| == |b| && forall i :: 0 <= i < |a| ==> SameButWording(a[i], b[i])
    ensures forall i :: 0 <= i < |a| ==> SameButWording(Reverse(a)[i], b[|b| - 1 - i])
  {
    forall i | 0 <= i < |a| ensures SameButWording(Reverse(a)[i], b[|b| - 1 - i]) {
      ReverseAt(a, i);
    }
  }

  /** The documented pattern: register the compensation of each step as it completes, compensate all on failure. It
      does to the world exactly what with_compensation does, and reports the same results, last one first. */
  method RegisterAndCompensate<W>(steps: seq<Step<W>>, compensations: seq<Action<W>>, start: W)
    returns (w: W, failure: Option<string>, results: seq<ActionResult>)
    requires |steps| == |compensations|
    ensures var (sagaWorld, saga) := Saga(steps, compensations, start);
      && w == sagaWorld && failure == saga.failure && |results| == |saga.results|
      && forall i :: 0 <= i < |results| ==> SameButWording(saga.results[i], results[|results| - 1 - i])
  {
    var context := new CompensationContext<W>();
    w, failure, results := start, None, [];
    var idx := 0;
    while idx < |steps| && failure.None?
      invariant idx <= |steps| && context.actions == compensations[..idx] && fresh(context)
      invariant failure.None? ==> Proceed(steps, start, 0) == Proceed(steps, w, idx)
      invariant failure.Some? ==> Proceed(steps, start, 0) == (w, idx, failure)
      decreases |steps| - idx, failure.None?
    {
      var (after, outcome) := steps[idx](w);
      w := after;
      match outcome {
        case Done =>
          context.Register(compensations[idx]);
          idx := idx + 1;
        case Failed(error) => failure := Some(error);
        case Crashed(message) => failure := Some(message);
      }
    }
    if failure.Some? {
      WordingIsImmaterial(compensations[..idx], w, SAGA_WORDING, CONTEXT_WORDING);
      ghost var undone := UndoAll(compensations[..idx], w, SAGA_WORDING).1;
      w, results := context.CompensateAll(w);
      ReversedAlike(undone, results);
    }
  }

  /** Result i is that of compensation i, run in the world the later compensations left. */
  lemma ResultBelongsToStep<W>(steps: seq<Step<W>>, compensations: seq<Action<W>>, w: W, i: nat)
    requires |steps| == |compensations|
    requires i < |Saga(steps, compensations, w).1.results|
    ensures var (broken, completed, failure) := Proceed(steps, w, 0);
      i < completed && |Saga(steps, compensations, w).1.results| == completed
      && Saga(steps, compensations, w).1.results[i]
      == Undo(compensations[i], UndoAll(compensations[i + 1..completed], broken, SAGA_WORDING).0, SAGA_WORDING).1
  {
    var (broken, completed, failure) := Proceed(steps, w, 0);
    var undone := UndoAll(compensations[..completed], broken, SAGA_WORDING).1;
    ReverseAt(undone, i);
    UndoAllAt(compensations[..completed], broken, SAGA_WORDING, i);
    assert compensations[..completed][i + 1..] == compensations[i + 1..completed];
  }

  // ---- Rollback ----

  /** The world after the first n steps. */
  function After<W>(steps: seq<Step<W>>, w: W, n: nat): W
    requires n <= |steps|
  {
    if n == 0 then w else steps[n - 1](After(steps, w, n - 1)).0
  }

  lemma {:induction false} ProceedFollows<W>(steps: seq<Step<W>>, w: W, done: nat)
    requires done <= |steps|
    ensures var (broken, completed, failure) := Proceed(steps, After(steps, w, done), done);
      broken == if failure.Some? && completed < |steps| then After(steps, w, completed + 1) else After(steps, w, completed)
    ensures var (broken, completed, failure) := Proceed(steps, After(steps, w, done), done);
      failure.Some? ==> completed < |steps|
    decreases |steps| - done
  {
    if done < |steps| && steps[done](After(steps, w, done)).1.Done? {
      ProceedFollows(steps, w, done + 1);
    }
  }

  /** A saga succeeds exactly when every step is done, each in the world the steps before it left. Otherwise it stops at the
      first step that is not, and reports that step's error. */
  lemma SagaOutcomeIs<W>(steps: seq<Step<W>>, compensations: seq<Action<W>>, w: W)
    requires |steps| == |compensations|
    ensures var (after, saga) := Saga(steps, compensations, w);
      && saga.totalSteps == |steps| && saga.completedSteps <= |steps|
      && (saga.success <==> forall i :: 0 <= i < |steps| ==> steps[i](After(steps, w, i)).1.Done?)
      && (forall i :: 0 <= i < saga.completedSteps ==> steps[i](After(steps, w, i)).1.Done?)
      && if saga.success then
           saga.completedSteps == |steps| && saga.failure == None && saga.results == [] && after == After(steps, w, |steps|)
         else
           && saga.completedSteps < |steps| && |saga.results| == saga.completedSteps
           && match steps[saga.completedSteps](After(steps, w, saga.completedSteps)).1
              case Done => false
              case Failed(error) => saga.failure == Some(error)
              case Crashed(message) => saga.failure == Some(message)
  {
    ProceedFollows(steps, w, 0);
    ProceedStops(steps, w, 0);
  }

  lemma {:induction false} ProceedStops<W>(steps: seq<Step<W>>, w: W, done: nat)
    requires done <= |steps|
    ensures var (broken, completed, failure) := Proceed(steps, After(steps, w, done), done);
      && (forall i :: done <= i < completed ==> steps[i](After(steps, w, i)).1.Done?)
      && (failure.None? ==> broken == After(steps, w, |steps|))
      && (failure.Some? ==>
            completed < |steps|
            && match steps[completed](After(steps, w, completed)).1
               case Done => false
               case Failed(error) => failure == Some(error)
               case Crashed(message) => failure == Some(message))
    decreases |steps| - done
  {
    if done < |steps| && steps[done](After(steps, w, done)).1.Done? {
      ProceedStops(steps, w, done + 1);
    }
  }

  /** Along this run, each completed step's compensation takes the world back to before the step. */
  ghost predicate Inverts<W>(steps: seq<Step<W>>, compensations: seq<Action<W>>, w: W, completed: nat)
    requires completed <= |steps| == |compensations|
  {
    forall i :: 0 <= i < completed ==>
      Undo(compensations[i], After(steps, w, i + 1), SAGA_WORDING).0 == After(steps, w, i)
      && Undo(compensations[i], After(steps, w, i + 1), SAGA_WORDING).1.success
  }

  lemma {:induction false} UndoRestores<W>(steps: seq<Step<W>>, compensations: seq<Action<W>>, w: W, completed: nat)
    requires completed <= |steps| == |compensations| && Inverts(steps, compensations, w, completed)
    ensures UndoAll(compensations[..completed], After(steps, w, completed), SAGA_WORDING).0 == w
    ensures forall i :: 0 <= i < completed ==>
      UndoAll(compensations[..completed], After(steps, w, completed), SAGA_WORDING).1[i].success
  {
    if completed > 0 {
      UndoRestores(steps, compensations, w, completed - 1);
      assert compensations[..completed][..completed - 1] == compensations[..completed - 1];
    }
  }

  /** A failed saga whose compensations invert their steps, and whose failing step changed nothing, leaves the world
      as it found it. */
  lemma FailedSagaRollsBack<W>(steps: seq<Step<W>>, compensations: seq<Action<W>>, w: W)
    requires |steps| == |compensations| && !Saga(steps, compensations, w).1.success
    requires var n := Saga(steps, compensations, w).1.completedSteps;
      n < |steps| ==> Inverts(steps, compensations, w, n) && After(steps, w, n + 1) == After(steps, w, n)
    ensures Saga(steps, compensations, w).0 == w
    ensures forall i :: 0 <= i < |Saga(steps, compensations, w).1.results| ==>
      Saga(steps, compensations, w).1.results[i].success
  {
    ProceedFollows(steps, w, 0);
    var n := Saga(steps, compensations, w).1.completedSteps;
    UndoRestores(steps, compensations, w, n);
    var undone := UndoAll(compensations[..n], After(steps, w, n), SAGA_WORDING).1;
    forall i | 0 <= i < n ensures Reverse(undone)[i].success {
      ReverseAt(undone, i);
    }
  }
}
