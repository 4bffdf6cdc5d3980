/** Bulk operations that tolerate some failing items. Ratios are exact reals. */
module BulkOperations {
  import opened Common

  datatype ErrorClass = AuthError | CredentialError | ConfigError | ValidationError | ModeError | OtherError

  /** What the operation does with one item: a value, an integration error, or an exception of another kind. */
  datatype ItemOutcome<+T> = Done(value: T) | Failed(error: ErrorClass) | Crashed(message: string)

  datatype Policy = Policy(maxFailureRatio: real, failFastOnAuth: bool, failFastOnConfig: bool, collectErrors: bool) {
    /** What the policy's constructor insists on. */
    predicate Valid() {
      0.0 <= maxFailureRatio <= 1.0
    }
  }

  datatype Overall = AllSucceeded | PartialSuccess | AllFailed | Aborted

  datatype BulkResult<+T, +I> = BulkResult(
    outcome: Overall, succeeded: seq<T>, failed: seq<(I, ErrorClass)>, abortedAt: Option<nat>, total: nat)
  {
    function FailureRatio(): real {
      if total == 0 then 0.0 else |failed| as real / total as real
    }
  }

  function Successes<T>(outcomes: seq<ItemOutcome<T>>): seq<T> {
    if outcomes == [] then []
    else Successes(outcomes[..|outcomes| - 1]) + if Last(outcomes).Done? then [Last(outcomes).value] else []
  }

  function Failures<T, I>(items: seq<I>, outcomes: seq<ItemOutcome<T>>): seq<(I, ErrorClass)>
    requires |items| == |outcomes|
  {
    if outcomes == [] then []
    else
      Failures(items[..|items| - 1], outcomes[..|outcomes| - 1])
      + if Last(outcomes).Failed? then [(Last(items), Last(outcomes).error)] else []
  }

  function FailureCount<T>(outcomes: seq<ItemOutcome<T>>): nat {
    if outcomes == [] then 0
    else FailureCount(outcomes[..|outcomes| - 1]) + if Last(outcomes).Failed? then 1 else 0
  }

  predicate FailsFast(pol: Policy, error: ErrorClass) {
    || (pol.failFastOnAuth && (error.AuthError? || error.CredentialError?))
    || (pol.failFastOnConfig && (error.ConfigError? || error.ValidationError? || error.ModeError?))
  }

  predicate RatioExceeded(failures: nat, attempted: nat, ratio: real)
    requires attempted > 0
  {
    failures as real / attempted as real > ratio
  }

  /** At most the given share of n items. */
  predicate WithinShare(failures: nat, n: nat, ratio: real) {
    failures as real <= ratio * n as real
  }

  /** The item fails, and with it one of the conditions for giving up is met. */
  predicate GivesUpAt<T>(pol: Policy, outcomes: seq<ItemOutcome<T>>, i: nat)
    requires i < |outcomes|
  {
    && outcomes[i].Failed?
    && (FailsFast(pol, outcomes[i].error)
        || RatioExceeded(FailureCount(outcomes[..i + 1]), i + 1, pol.maxFailureRatio)
        || !pol.collectErrors)
  }

  predicate PassesThrough<T>(pol: Policy, outcomes: seq<ItemOutcome<T>>, i: nat)
    requires i < |outcomes|
  {
    !outcomes[i].Crashed? && !GivesUpAt(pol, outcomes, i)
  }

  /** An exception of another kind escapes, after items that all went through. */
  predicate CrashesAt<T>(pol: Policy, outcomes: seq<ItemOutcome<T>>, k: nat)
    requires k < |outcomes|
  {
    outcomes[k].Crashed? && forall j :: 0 <= j < k ==> PassesThrough(pol, outcomes, j)
  }

  /** How many items were attempted. */
  function Processed<T, I>(r: BulkResult<T, I>): nat {
    if r.abortedAt.Some? then r.abortedAt.value + 1 else r.total
  }

  function Classify(aborted: bool, failures: nat, successes: nat): Overall {
    if aborted then Aborted
    else if failures == 0 then AllSucceeded
    else if successes == 0 then AllFailed
    else PartialSuccess
  }

  lemma {:induction false} FailuresCounted<T, I>(items: seq<I>, outcomes: seq<ItemOutcome<T>>)
    requires |items| == |outcomes|
    ensures |Failures(items, outcomes)| == FailureCount(outcomes)
  {
    if outcomes != [] {
      FailuresCounted(items[..|items| - 1], outcomes[..|outcomes| - 1]);
    }
  }

  lemma OutcomesNext<T, I>(items: seq<I>, outcomes: seq<ItemOutcome<T>>, i: nat)
    requires |items| == |outcomes| && i < |items|
    ensures Successes(outcomes[..i + 1]) == Successes(outcomes[..i]) + if outcomes[i].Done? then [outcomes[i].value] else []
    ensures Failures(items[..i + 1], outcomes[..i + 1])
         == Failures(items[..i], outcomes[..i]) + if outcomes[i].Failed? then [(items[i], outcomes[i].error)] else []
    ensures |Failures(items[..i + 1], outcomes[..i + 1])| == FailureCount(outcomes[..i + 1])
  {
    assert outcomes[..i + 1][..i] == outcomes[..i] && items[..i + 1][..i] == items[..i];
    FailuresCounted(items[..i + 1], outcomes[..i + 1]);
  }

  // ---- What ends a batch, and what is in the lists ----

  ghost function FailedAmong<T>(outcomes: seq<ItemOutcome<T>>, n: nat): set<int>
    requires n <= |outcomes|
  {
    set i | 0 <= i < n && outcomes[i].Failed?
  }

  lemma {:induction false} FailureCountIs<T>(outcomes: seq<ItemOutcome<T>>, n: nat)
    requires n <= |outcomes|
    ensures FailureCount(outcomes[..n]) == |FailedAmong(outcomes, n)|
  {
    if n > 0 {
      FailureCountIs(outcomes, n - 1);
      assert outcomes[..n][..n - 1] == outcomes[..n - 1];
      assert FailedAmong(outcomes, n) == FailedAmong(outcomes, n - 1) + if outcomes[n - 1].Failed? then {n - 1} else {};
    }
  }

  /** An item ends the batch exactly when it fails with a class that the policy fails fast on, or the failures so far are
      more than the ratio of the items so far, or errors are not collected. */
  lemma GivesUpIff<T>(pol: Policy, outcomes: seq<ItemOutcome<T>>, i: nat)
    requires i < |outcomes|
    ensures GivesUpAt(pol, outcomes, i) <==>
      && outcomes[i].Failed?
      && (|| (pol.failFastOnAuth && outcomes[i].error in {AuthError, CredentialError})
          || (pol.failFastOnConfig && outcomes[i].error in {ConfigError, ValidationError, ModeError})
          || |FailedAmong(outcomes, i + 1)| as real > pol.maxFailureRatio * (i + 1) as real
          || !pol.collectErrors)
  {
    FailureCountIs(outcomes, i + 1);
    ShareIsRatio(FailureCount(outcomes[..i + 1]), i + 1, pol.maxFailureRatio);
  }

  /** Each item that failed is in its place in the list of failures, after those that failed before it. */
  lemma {:induction false} FailureStandsAt<T, I>(items: seq<I>, outcomes: seq<ItemOutcome<T>>, i: nat)
    requires |items| == |outcomes| && i < |items| && outcomes[i].Failed?
    ensures |Failures(items, outcomes)| == |FailedAmong(outcomes, |outcomes|)|
    ensures var k := |FailedAmong(outcomes, i)|;
      k < |Failures(items, outcomes)| && Failures(items, outcomes)[k] == (items[i], outcomes[i].error)
  {
    var n := |outcomes| - 1;
    FailuresCounted(items, outcomes);
    FailureCountIs(outcomes, |outcomes|);
    assert outcomes[..|outcomes|] == outcomes;
    if i < n {
      FailureStandsAt(items[..n], outcomes[..n], i);
      assert FailedAmong(outcomes[..n], i) == FailedAmong(outcomes, i);
    } else {
      FailuresCounted(items[..n], outcomes[..n]);
      FailureCountIs(outcomes, n);
    }
  }

  /** Each item that succeeded is in its place in the list of successes, after those that succeeded before it. */
  lemma {:induction false} SuccessStandsAt<T>(outcomes: seq<ItemOutcome<T>>, i: nat)
    requires i < |outcomes| && outcomes[i].Done?
    ensures |Successes(outcomes[..i])| < |Successes(outcomes)|
    ensures Successes(outcomes)[|Successes(outcomes[..i])|] == outcomes[i].value
  {
    var n := |outcomes| - 1;
    if i < n {
      SuccessStandsAt(outcomes[..n], i);
      assert outcomes[..n][..i] == outcomes[..i];
    }
  }

  /** The loop over the items, in order; the result says exactly where it stopped and what it collected on the way. */
  method ExecuteWithPartialFailure<T, I>(items: seq<I>, outcomes: seq<ItemOutcome<T>>, pol: Policy)
    returns (r: Result<BulkResult<T, I>, string>)
    requires |items| == |outcomes| && pol.Valid()
    ensures r.Err? ==> exists k :: 0 <= k < |items| && CrashesAt(pol, outcomes, k)
    ensures r.Ok? ==>
      && r.value.total == |items|
      && (r.value.abortedAt.Some? ==> r.value.abortedAt.value < |items| && GivesUpAt(pol, outcomes, r.value.abortedAt.value))
      && (forall j :: 0 <= j < (if r.value.abortedAt.Some? then r.value.abortedAt.value else |items|) ==>
            PassesThrough(pol, outcomes, j))
      && r.value.succeeded == Successes(outcomes[..Processed(r.value)])
      && r.value.failed == Failures(items[..Processed(r.value)], outcomes[..Processed(r.value)])
      && r.value.outcome == Classify(r.value.abortedAt.Some?, |r.value.failed|, |r.value.succeeded|)
    ensures r.Ok? && r.value.abortedAt.None? ==> Reported(items, outcomes, pol, r.value)
    ensures r.Ok? && r.value.abortedAt.Some? ==>
      var i := r.value.abortedAt.value;
      i < |items| && outcomes[i].Failed? && r.value.failed != [] && Last(r.value.failed) == (items[i], outcomes[i].error)
    ensures r.Ok? ==> match r.value.outcome
      case Aborted => r.value.abortedAt.Some?
      case AllSucceeded => r.value.abortedAt.None? && r.value.failed == []
      case AllFailed => r.value.abortedAt.None? && r.value.failed != [] && r.value.succeeded == []
      case PartialSuccess => r.value.abortedAt.None? && r.value.failed != [] && r.value.succeeded != []
  {
    var succeeded: seq<T>, failed: seq<(I, ErrorClass)>, abortedAt: Option<nat> := [], [], None;
    var idx := 0;
    while idx < |items| && abortedAt.None?
      invariant idx <= |items|
      invariant abortedAt.Some? ==> idx == abortedAt.value + 1 && GivesUpAt(pol, outcomes, abortedAt.value)
      invariant forall j :: 0 <= j < (if abortedAt.Some? then abortedAt.value else idx) ==> PassesThrough(pol, outcomes, j)
      invariant succeeded == Successes(outcomes[..idx]) && failed == Failures(items[..idx], outcomes[..idx])
      decreases |items| - idx
    {
      OutcomesNext(items, outcomes, idx);
      match outcomes[idx] {
        case Crashed(message) =>
          assert CrashesAt(pol, outcomes, idx);
          return Err(message);
        case Done(value) =>
          succeeded := succeeded + [value];
        case Failed(error) =>
          failed := failed + [(items[idx], error)];
          if pol.failFastOnAuth && (error.AuthError? || error.CredentialError?) {
            abortedAt := Some(idx);
          } else if pol.failFastOnConfig && (error.ConfigError? || error.ValidationError? || error.ModeError?) {
            abortedAt := Some(idx);
          } else if RatioExceeded(|failed|, idx + 1, pol.maxFailureRatio) {
            abortedAt := Some(idx);
          } else if !pol.collectErrors {
            abortedAt := Some(idx);
          }
      }
      idx := idx + 1;
    }
    assert items[..|items|] == items && outcomes[..|items|] == outcomes;
    r := Ok(BulkResult(Classify(abortedAt.Some?, |failed|, |succeeded|), succeeded, failed, abortedAt, |items|));
  }

  lemma {:induction false} SuccessesAndFailures<T>(outcomes: seq<ItemOutcome<T>>)
    requires forall i :: 0 <= i < |outcomes| ==> !outcomes[i].Crashed?
    ensures |Successes(outcomes)| + FailureCount(outcomes) == |outcomes|
  {
    if outcomes != [] {
      SuccessesAndFailures(outcomes[..|outcomes| - 1]);
    }
  }

  lemma ShareGrows(failures: nat, n: nat, ratio: real)
    requires 0.0 <= ratio && WithinShare(failures, n, ratio)
    ensures WithinShare(failures, n + 1, ratio)
  {
  }

  lemma ShareIsRatio(failures: nat, n: nat, ratio: real)
    requires n > 0
    ensures WithinShare(failures, n, ratio) <==> !RatioExceeded(failures, n, ratio)
  {
    var share := failures as real / n as real;
    assert failures as real == share * n as real;
    if share > ratio {
      assert share * n as real > ratio * n as real;
    }
  }

  /** The ratio is of all items of the batch, attempted or not; an empty batch has none that failed. */
  lemma FailureRatioIs<T, I>(r: BulkResult<T, I>)
    ensures if r.total == 0 then r.FailureRatio() == 0.0 else r.FailureRatio() * r.total as real == |r.failed| as real
  {
  }

  /** If the loop never gives up, the failures among any first n items stay within the ratio. */
  lemma {:induction false} PrefixBound<T>(pol: Policy, outcomes: seq<ItemOutcome<T>>, n: nat)
    requires pol.Valid() && n <= |outcomes|
    requires forall i :: 0 <= i < n ==> PassesThrough(pol, outcomes, i)
    ensures WithinShare(FailureCount(outcomes[..n]), n, pol.maxFailureRatio)
  {
    if n > 0 {
      PrefixBound(pol, outcomes, n - 1);
      assert outcomes[..n][..n - 1] == outcomes[..n - 1];
      assert PassesThrough(pol, outcomes, n - 1);
      if outcomes[n - 1].Failed? {
        ShareIsRatio(FailureCount(outcomes[..n]), n, pol.maxFailureRatio);
      } else {
        ShareGrows(FailureCount(outcomes[..n - 1]), n - 1, pol.maxFailureRatio);
      }
    }
  }

  /** No prefix of the items fails more often than the policy allows. */
  ghost predicate EveryPrefixWithinShare<T>(pol: Policy, outcomes: seq<ItemOutcome<T>>) {
    forall n: nat :: n <= |outcomes| ==> WithinShare(FailureCount(outcomes[..n]), n, pol.maxFailureRatio)
  }

  /** Neither escapes the loop nor ends it by itself. */
  predicate Tolerated<T>(pol: Policy, outcome: ItemOutcome<T>) {
    !outcome.Crashed? && (outcome.Failed? ==> pol.collectErrors && !FailsFast(pol, outcome.error))
  }

  /** The loop goes to the end exactly when every outcome is tolerated and no prefix of the items fails more often than the
      policy allows: the limit is on every prefix, not on the whole batch. */
  lemma CompletesIff<T>(pol: Policy, outcomes: seq<ItemOutcome<T>>)
    requires pol.Valid()
    ensures (forall i :: 0 <= i < |outcomes| ==> PassesThrough(pol, outcomes, i)) <==>
      EveryPrefixWithinShare(pol, outcomes) && forall i :: 0 <= i < |outcomes| ==> Tolerated(pol, outcomes[i])
  {
    if forall i :: 0 <= i < |outcomes| ==> PassesThrough(pol, outcomes, i) {
      forall n: nat | n <= |outcomes| ensures WithinShare(FailureCount(outcomes[..n]), n, pol.maxFailureRatio) {
        PrefixBound(pol, outcomes, n);
      }
      forall i | 0 <= i < |outcomes| ensures Tolerated(pol, outcomes[i]) {
        assert PassesThrough(pol, outcomes, i);
      }
    }
    if EveryPrefixWithinShare(pol, outcomes) && forall i :: 0 <= i < |outcomes| ==> Tolerated(pol, outcomes[i]) {
      forall i | 0 <= i < |outcomes| ensures PassesThrough(pol, outcomes, i) {
        assert WithinShare(FailureCount(outcomes[..i + 1]), i + 1, pol.maxFailureRatio);
        ShareIsRatio(FailureCount(outcomes[..i + 1]), i + 1, pol.maxFailureRatio);
      }
    }
  }

  /** What the method reports of a batch it did not give up. */
  ghost predicate Reported<T, I>(items: seq<I>, outcomes: seq<ItemOutcome<T>>, pol: Policy, r: BulkResult<T, I>)
    requires |items| == |outcomes|
  {
    && r.abortedAt.None? && r.total == |items|
    && (forall j :: 0 <= j < |items| ==> PassesThrough(pol, outcomes, j))
    && r.succeeded == Successes(outcomes) && r.failed == Failures(items, outcomes)
    && r.outcome == Classify(false, |r.failed|, |r.succeeded|)
  }

  /** A batch that is not aborted fails in no more than the allowed share of its items; all of a non-empty batch can
      fail without an abort only if the policy allows everything to fail. */
  lemma FailureShareBounded<T, I>(items: seq<I>, outcomes: seq<ItemOutcome<T>>, pol: Policy, r: BulkResult<T, I>)
    requires |items| == |outcomes| && pol.Valid() && Reported(items, outcomes, pol, r)
    ensures |r.succeeded| + |r.failed| == r.total
    ensures WithinShare(|r.failed|, r.total, pol.maxFailureRatio) && r.FailureRatio() <= pol.maxFailureRatio
    ensures r.outcome == AllFailed ==> r.total > 0 && pol.maxFailureRatio == 1.0
  {
    FailuresCounted(items, outcomes);
    forall i | 0 <= i < |outcomes| ensures !outcomes[i].Crashed? {
      assert PassesThrough(pol, outcomes, i);
    }
    SuccessesAndFailures(outcomes);
    assert outcomes[..|outcomes|] == outcomes;
    PrefixBound(pol, outcomes, |outcomes|);
    if r.total > 0 {
      ShareIsRatio(|r.failed|, r.total, pol.maxFailureRatio);
    }
    if r.outcome == AllFailed {
      AllOf(r.total, pol.maxFailureRatio);
    }
  }

  lemma AllOf(n: nat, ratio: real)
    requires n > 0 && ratio <= 1.0 && WithinShare(n, n, ratio)
    ensures ratio == 1.0
  {
    assert n as real * (1.0 - ratio) <= 0.0;
  }

  /** Below a ratio of one, a batch whose first item fails is given up at once, however long it is and however well the
      rest would have gone. */
  lemma FirstFailureAborts<T>(pol: Policy, outcomes: seq<ItemOutcome<T>>)
    requires pol.Valid() && outcomes != [] && outcomes[0].Failed? && pol.maxFailureRatio < 1.0
    ensures GivesUpAt(pol, outcomes, 0)
  {
    assert outcomes[..1][..0] == [];
    assert FailureCount(outcomes[..1]) == 1;
  }
}
