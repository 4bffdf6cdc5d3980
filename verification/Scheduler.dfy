/** Scheduled jobs: the distributed lock and the minimum-spacing guard around one run of a job.

    Any number of workers share two Redis keys. Each await of the wrapper is one atomic step of a
    machine, and steps of different workers interleave freely. */
module Scheduler {
  import opened Common

  const LAST_RUN_LIFE := 86_400 * SECOND

  /** Lock time to live in whole seconds, as handed to Redis, and the drift tolerance in microseconds. */
  datatype Config = Config(hasRedis: bool, lockTtl: int, tolerance: int)

  datatype LastRunValue = Stamp(at: int) | Unparsable
  datatype LastRun = LastRun(value: LastRunValue, expiresAt: int)

  datatype Outcome = SkippedDuplicate(scheduledAt: int) | SkippedDrift(scheduledAt: int) | Ran(scheduledAt: int, ok: bool)

  /** Where a worker stands in the wrapper. until is when the lock it took runs out, None without a lock. */
  datatype Stage =
    | Idle
    | Started(scheduledAt: int)
    | Checking(scheduledAt: int, until: Option<int>)
    | Recording(scheduledAt: int, until: Option<int>)
    | Running(scheduledAt: int, until: Option<int>)
    | Releasing(outcome: Outcome, until: Option<int>)

  datatype State = State(
    now: int,
    lock: Option<int>,
    lastRun: Option<LastRun>,
    workers: seq<Stage>,
    executed: seq<int>,
    outcomes: seq<Outcome>)

  datatype Step = Tick(to: int) | Begin(w: nat) | Acquire(w: nat) | Check(w: nat) | Record(w: nat)
                | Finish(w: nat, ok: bool) | Release(w: nat, deleted: bool) | Crash(w: nat)

  predicate LockPresent(s: State) {
    s.lock.Some? && s.now < s.lock.value
  }

  /** Whether the time of the last run, if Redis still has it, is too close to scheduledAt. */
  predicate TooSoon(cfg: Config, lastRun: Option<LastRun>, now: int, scheduledAt: int) {
    && lastRun.Some? && now < lastRun.value.expiresAt
    && lastRun.value.value.Stamp? && scheduledAt - lastRun.value.value.at < cfg.tolerance
  }

  function At(s: State, w: nat): Stage {
    if w < |s.workers| then s.workers[w] else Idle
  }

  function Moved(s: State, w: nat, stage: Stage): State {
    if w < |s.workers| then s.(workers := s.workers[w := stage]) else s
  }

  /** One atomic step; a step the worker is not ready for does nothing. A worker that dies leaves the keys as they are. */
  function Apply(cfg: Config, s: State, step: Step): State {
    match step
    case Tick(to) => if to > s.now then s.(now := to) else s
    case Begin(w) => if At(s, w).Idle? then Moved(s, w, Started(s.now)) else s
    case Acquire(w) =>
      if !At(s, w).Started? then s
      else if !cfg.hasRedis || cfg.lockTtl <= 0 then Moved(s, w, Checking(At(s, w).scheduledAt, None))
      else if LockPresent(s) then
        Moved(s, w, Idle).(outcomes := s.outcomes + [SkippedDuplicate(At(s, w).scheduledAt)])
      else
        var until := s.now + cfg.lockTtl * SECOND;
        Moved(s, w, Checking(At(s, w).scheduledAt, Some(until))).(lock := Some(until))
    case Check(w) =>
      var stage := At(s, w);
      if !stage.Checking? then s
      else if !cfg.hasRedis || cfg.tolerance <= 0 then
        Moved(s, w, Running(stage.scheduledAt, stage.until)).(executed := s.executed + [stage.scheduledAt])
      else if TooSoon(cfg, s.lastRun, s.now, stage.scheduledAt) then
        Moved(s, w, Releasing(SkippedDrift(stage.scheduledAt), stage.until))
      else Moved(s, w, Recording(stage.scheduledAt, stage.until))
    case Record(w) =>
      var stage := At(s, w);
      if !stage.Recording? then s
      else
        Moved(s, w, Running(stage.scheduledAt, stage.until)).(
          executed := s.executed + [stage.scheduledAt],
          lastRun := Some(LastRun(Stamp(stage.scheduledAt), s.now + LAST_RUN_LIFE)))
    case Finish(w, ok) =>
      var stage := At(s, w);
      if !stage.Running? then s
      else Moved(s, w, Releasing(Ran(stage.scheduledAt, ok), stage.until))
    case Release(w, deleted) =>
      var stage := At(s, w);
      if !stage.Releasing? then s
      else
        Moved(s, w, Idle).(
          lock := if stage.until.Some? && deleted then None else s.lock,
          outcomes := s.outcomes + [stage.outcome])
    case Crash(w) => Moved(s, w, Idle)
  }

  function Initial(workers: nat, now: int): State {
    State(now, None, None, seq(workers, _ => Idle), [], [])
  }

  function Run(cfg: Config, s: State, steps: seq<Step>): State {
    if steps == [] then s else Apply(cfg, Run(cfg, s, steps[..|steps| - 1]), Last(steps))
  }

  // ---- Mutual exclusion ----

  /** The worker is between taking the lock and giving it back. */
  predicate Holds(stage: Stage) {
    (stage.Checking? || stage.Recording? || stage.Running? || stage.Releasing?) && stage.until.Some?
  }

  /** No holder is past its lock's time to live. */
  ghost predicate Punctual(s: State) {
    forall w :: 0 <= w < |s.workers| && Holds(s.workers[w]) ==> s.now < s.workers[w].until.value
  }

  ghost predicate AlwaysPunctual(cfg: Config, s: State, steps: seq<Step>) {
    Punctual(Run(cfg, s, steps)) && (steps == [] || AlwaysPunctual(cfg, s, steps[..|steps| - 1]))
  }

  /** No delete is lost, and nobody dies. */
  predicate AlwaysGivenBack(steps: seq<Step>) {
    forall i :: 0 <= i < |steps| ==> !steps[i].Crash? && (steps[i].Release? ==> steps[i].deleted)
  }

  ghost predicate OneHolder(s: State) {
    forall v, w :: 0 <= v < |s.workers| && 0 <= w < |s.workers| && Holds(s.workers[v]) && Holds(s.workers[w]) ==> v == w
  }

  /** Whoever is past the lock step holds the lock, and the key is the holder's. */
  ghost predicate Exclusive(s: State) {
    && OneHolder(s)
    && (forall w :: 0 <= w < |s.workers| ==> s.workers[w].Idle? || s.workers[w].Started? || Holds(s.workers[w]))
    && (forall w :: 0 <= w < |s.workers| && Holds(s.workers[w]) ==> s.lock == s.workers[w].until)
  }

  ghost predicate SomeHolder(s: State) {
    exists w :: 0 <= w < |s.workers| && Holds(s.workers[w])
  }

  lemma ApplyKeepsExclusive(cfg: Config, s: State, step: Step)
    requires cfg.hasRedis && cfg.lockTtl >= 1 && Exclusive(s) && Punctual(s)
    ensures Exclusive(Apply(cfg, s, step))
  {
  }

  lemma ApplyKeepsKeyHeld(cfg: Config, s: State, step: Step)
    requires cfg.hasRedis && cfg.lockTtl >= 1 && Exclusive(s) && Punctual(s)
    requires s.lock.Some? ==> SomeHolder(s)
    requires !step.Crash? && (step.Release? ==> step.deleted)
    ensures var t := Apply(cfg, s, step); t.lock.Some? ==> SomeHolder(t)
  {
    var t := Apply(cfg, s, step);
    if t.lock.Some? {
      if s.lock.Some? {
        var w :| 0 <= w < |s.workers| && Holds(s.workers[w]);
        assert Holds(t.workers[w]);
      } else {
        assert step.Acquire? && Holds(t.workers[step.w]);
      }
    }
  }

  /** If every holder gives the lock back before its time to live is over, then at every moment of every
      interleaving at most one worker is inside, whether deletes succeed or not and whoever dies. */
  lemma {:induction false} MutualExclusion(cfg: Config, workers: nat, start: int, steps: seq<Step>)
    requires cfg.hasRedis && cfg.lockTtl >= 1
    requires AlwaysPunctual(cfg, Initial(workers, start), steps)
    ensures Exclusive(Run(cfg, Initial(workers, start), steps))
  {
    if steps != [] {
      MutualExclusion(cfg, workers, start, steps[..|steps| - 1]);
      ApplyKeepsExclusive(cfg, Run(cfg, Initial(workers, start), steps[..|steps| - 1]), Last(steps));
    }
  }

  /** If moreover no delete is lost and no worker dies, the key is present exactly while some worker is inside. */
  lemma {:induction false} KeyPresentIffHeld(cfg: Config, workers: nat, start: int, steps: seq<Step>)
    requires cfg.hasRedis && cfg.lockTtl >= 1 && AlwaysGivenBack(steps)
    requires AlwaysPunctual(cfg, Initial(workers, start), steps)
    ensures var s := Run(cfg, Initial(workers, start), steps);
      (s.lock.Some? ==> SomeHolder(s)) && (LockPresent(s) <==> SomeHolder(s))
  {
    MutualExclusion(cfg, workers, start, steps);
    if steps != [] {
      var before := steps[..|steps| - 1];
      MutualExclusion(cfg, workers, start, before);
      KeyPresentIffHeld(cfg, workers, start, before);
      ApplyKeepsKeyHeld(cfg, Run(cfg, Initial(workers, start), before), Last(steps));
    }
  }

  // ---- How long a worker may hold the lock ----

  /** Every holder took its lock at most so long ago. */
  ghost predicate HeldAtMost(cfg: Config, s: State, hold: int) {
    forall w :: 0 <= w < |s.workers| && Holds(s.workers[w]) ==>
      s.now - (s.workers[w].until.value - cfg.lockTtl * SECOND) <= hold
  }

  ghost predicate AlwaysHeldAtMost(cfg: Config, s: State, steps: seq<Step>, hold: int) {
    HeldAtMost(cfg, Run(cfg, s, steps), hold) && (steps == [] || AlwaysHeldAtMost(cfg, s, steps[..|steps| - 1], hold))
  }

  lemma {:induction false} ShortHoldsArePunctual(cfg: Config, s: State, steps: seq<Step>, hold: int)
    requires AlwaysHeldAtMost(cfg, s, steps, hold) && hold < cfg.lockTtl * SECOND
    ensures AlwaysPunctual(cfg, s, steps)
  {
    if steps != [] {
      ShortHoldsArePunctual(cfg, s, steps[..|steps| - 1], hold);
    }
  }

  /** Nobody took a lock before the run began, and time only passes. */
  lemma {:induction false} TakenSinceStart(cfg: Config, workers: nat, start: int, steps: seq<Step>)
    ensures var s := Run(cfg, Initial(workers, start), steps);
      s.now >= start
      && forall w :: 0 <= w < |s.workers| && Holds(s.workers[w]) ==> s.workers[w].until.value >= start + cfg.lockTtl * SECOND
    ensures steps != [] ==>
      Run(cfg, Initial(workers, start), steps[..|steps| - 1]).now <= Run(cfg, Initial(workers, start), steps).now
  {
    if steps != [] {
      TakenSinceStart(cfg, workers, start, steps[..|steps| - 1]);
    }
  }

  /** So no hold is longer than the run. */
  lemma {:induction false} HeldWithinRun(cfg: Config, workers: nat, start: int, steps: seq<Step>, hold: int)
    requires Run(cfg, Initial(workers, start), steps).now - start <= hold
    ensures AlwaysHeldAtMost(cfg, Initial(workers, start), steps, hold)
  {
    TakenSinceStart(cfg, workers, start, steps);
    if steps != [] {
      HeldWithinRun(cfg, workers, start, steps[..|steps| - 1], hold);
    }
  }

  /** Two workers are never inside together, in any interleaving, exactly when the longest hold allowed is shorter than
      the lock's time to live. */
  lemma MutualExclusionIff(cfg: Config, hold: int)
    requires cfg.hasRedis && cfg.lockTtl >= 1
    ensures hold < cfg.lockTtl * SECOND <==>
      forall workers: nat, start, steps :: AlwaysHeldAtMost(cfg, Initial(workers, start), steps, hold) ==>
        OneHolder(Run(cfg, Initial(workers, start), steps))
  {
    if hold < cfg.lockTtl * SECOND {
      forall workers: nat, start, steps | AlwaysHeldAtMost(cfg, Initial(workers, start), steps, hold)
        ensures OneHolder(Run(cfg, Initial(workers, start), steps))
      {
        ShortHoldsArePunctual(cfg, Initial(workers, start), steps, hold);
        MutualExclusion(cfg, workers, start, steps);
      }
    } else {
      var steps := LongHoldAdmitsTwo(cfg);
      HeldWithinRun(cfg, 2, 0, steps, hold);
    }
  }

  lemma LongHoldAdmitsTwo(cfg: Config) returns (steps: seq<Step>)
    requires cfg.hasRedis && cfg.lockTtl >= 1
    ensures var s := Run(cfg, Initial(2, 0), steps); s.now == cfg.lockTtl * SECOND && !OneHolder(s)
  {
    var ttl := cfg.lockTtl * SECOND;
    var first, second := [Begin(0), Acquire(0)], [Begin(1), Acquire(1)];
    var s0 := Initial(2, 0);
    Enters(cfg, s0, 0);
    var s1 := Run(cfg, s0, first);
    RunSnoc(cfg, s0, first, Tick(ttl));
    var s2 := Apply(cfg, s1, Tick(ttl));
    Enters(cfg, s2, 1);
    RunConcat(cfg, s0, first + [Tick(ttl)], second);
    steps := first + [Tick(ttl)] + second;
    var s := Run(cfg, s0, steps);
    assert Holds(s.workers[0]) && Holds(s.workers[1]);
  }

  /** When the holder has left, by release or by dying, the next worker gets in exactly if the key was deleted or its
      time to live is over: nobody is shut out for longer than that. */
  lemma NextEntersIff(cfg: Config, s: State, leave: Step, w: nat, v: nat, to: int)
    requires cfg.hasRedis && cfg.lockTtl >= 1 && Exclusive(s) && s.now <= to
    requires w < |s.workers| && v < |s.workers| && Holds(s.workers[w]) && s.workers[v].Idle?
    requires leave == Crash(w) || (leave.Release? && leave.w == w && s.workers[w].Releasing?)
    ensures var t := Run(cfg, s, [leave, Tick(to), Begin(v), Acquire(v)]);
      Holds(At(t, v)) <==> (leave.Release? && leave.deleted) || s.workers[w].until.value <= to
  {
    RunPair(cfg, s, leave, Tick(to));
    var away := Run(cfg, s, [leave, Tick(to)]);
    RunPair(cfg, away, Begin(v), Acquire(v));
    RunConcat(cfg, s, [leave, Tick(to)], [Begin(v), Acquire(v)]);
    assert [leave, Tick(to), Begin(v), Acquire(v)] == [leave, Tick(to)] + [Begin(v), Acquire(v)];
    assert away.now == to && away.workers[v].Idle?;
    assert LockPresent(away) <==> !(leave.Release? && leave.deleted) && to < s.workers[w].until.value;
  }

  // ---- Spacing ----

  /** A worker about to look at the last run has been under way for at most the given delay. */
  ghost predicate Prompt(s: State, delay: int) {
    forall w :: 0 <= w < |s.workers| && s.workers[w].Checking? ==> s.now - s.workers[w].scheduledAt <= delay
  }

  ghost predicate AlwaysPrompt(cfg: Config, s: State, steps: seq<Step>, delay: int) {
    Prompt(Run(cfg, s, steps), delay) && (steps == [] || AlwaysPrompt(cfg, s, steps[..|steps| - 1], delay))
  }

  ghost predicate Spaced(executed: seq<int>, gap: int) {
    forall i, j :: 0 <= i < j < |executed| ==> executed[j] - executed[i] >= gap
  }

  /** Redis remembers the last run, and whoever is about to record one is far enough from it. */
  ghost predicate Tracked(cfg: Config, s: State) {
    && (forall w :: 0 <= w < |s.workers| && !s.workers[w].Idle? && !s.workers[w].Releasing? ==>
          s.workers[w].scheduledAt <= s.now)
    && (s.executed == [] ==> s.lastRun.None?)
    && (s.executed != [] ==>
          s.lastRun.Some? && s.lastRun.value.value == Stamp(Last(s.executed))
          && s.lastRun.value.expiresAt >= Last(s.executed) + LAST_RUN_LIFE)
    && (forall w :: 0 <= w < |s.workers| && s.workers[w].Recording? && s.executed != [] ==>
          s.workers[w].scheduledAt - Last(s.executed) >= cfg.tolerance)
  }

  lemma SpacedExtends(executed: seq<int>, gap: int, next: int)
    requires Spaced(executed, gap) && gap > 0
    requires executed != [] ==> next - Last(executed) >= gap
    ensures Spaced(executed + [next], gap)
  {
    forall i, j | 0 <= i < j < |executed| + 1 ensures (executed + [next])[j] - (executed + [next])[i] >= gap {
      if j == |executed| && i < |executed| - 1 {
        assert Last(executed) - executed[i] >= gap;
      }
    }
  }

  lemma ApplyKeepsTracked(cfg: Config, s: State, step: Step, delay: int)
    requires cfg.hasRedis && cfg.lockTtl >= 1 && cfg.tolerance > 0 && cfg.tolerance + delay <= LAST_RUN_LIFE
    requires Exclusive(s) && Tracked(cfg, s) && Prompt(s, delay) && Spaced(s.executed, cfg.tolerance)
    ensures Tracked(cfg, Apply(cfg, s, step)) && Spaced(Apply(cfg, s, step).executed, cfg.tolerance)
  {
    if step.Record? && At(s, step.w).Recording? {
      SpacedExtends(s.executed, cfg.tolerance, At(s, step.w).scheduledAt);
    }
  }

  lemma {:induction false} RunsAreTracked(cfg: Config, workers: nat, start: int, steps: seq<Step>, delay: int)
    requires cfg.hasRedis && cfg.lockTtl >= 1 && cfg.tolerance > 0 && cfg.tolerance + delay <= LAST_RUN_LIFE
    requires AlwaysPunctual(cfg, Initial(workers, start), steps)
    requires AlwaysPrompt(cfg, Initial(workers, start), steps, delay)
    ensures var s := Run(cfg, Initial(workers, start), steps); Tracked(cfg, s) && Spaced(s.executed, cfg.tolerance)
  {
    if steps != [] {
      var before := steps[..|steps| - 1];
      RunsAreTracked(cfg, workers, start, before, delay);
      MutualExclusion(cfg, workers, start, before);
      ApplyKeepsTracked(cfg, Run(cfg, Initial(workers, start), before), Last(steps), delay);
    }
  }

  /** The times of any two executed runs, failed ones included, lie at least the tolerance apart, in order. */
  lemma SpacingHolds(cfg: Config, workers: nat, start: int, steps: seq<Step>, delay: int)
    requires cfg.hasRedis && cfg.lockTtl >= 1 && cfg.tolerance > 0 && cfg.tolerance + delay <= LAST_RUN_LIFE
    requires AlwaysPunctual(cfg, Initial(workers, start), steps)
    requires AlwaysPrompt(cfg, Initial(workers, start), steps, delay)
    ensures forall i, j :: 0 <= i < j < |Run(cfg, Initial(workers, start), steps).executed| ==>
      Run(cfg, Initial(workers, start), steps).executed[j] - Run(cfg, Initial(workers, start), steps).executed[i]
      >= cfg.tolerance
  {
    RunsAreTracked(cfg, workers, start, steps, delay);
  }

  // ---- Who is executed ----

  /** The guard refuses exactly when the last-run key is alive, can be read, and is closer than the tolerance. */
  lemma GuardRefusesIff(cfg: Config, s: State, w: nat)
    requires cfg.hasRedis && cfg.tolerance > 0 && w < |s.workers| && s.workers[w].Checking?
    ensures var at := s.workers[w].scheduledAt; var stage := Apply(cfg, s, Check(w)).workers[w];
      if s.lastRun.Some? && s.now < s.lastRun.value.expiresAt && s.lastRun.value.value.Stamp?
         && at - s.lastRun.value.value.at < cfg.tolerance
      then stage == Releasing(SkippedDrift(at), s.workers[w].until)
      else stage == Recording(at, s.workers[w].until)
  {
  }

  /** Far enough from every run so far. */
  predicate FarEnough(executed: seq<int>, at: int, gap: int) {
    executed == [] || at - Last(executed) >= gap
  }

  lemma TrackedGuard(cfg: Config, s: State, w: nat, delay: int)
    requires cfg.hasRedis && cfg.tolerance > 0 && cfg.tolerance + delay <= LAST_RUN_LIFE && Tracked(cfg, s)
    requires w < |s.workers| && s.workers[w].Checking? && s.now - s.workers[w].scheduledAt <= delay
    ensures var at := s.workers[w].scheduledAt; var t := Run(cfg, s, [Check(w), Record(w)]);
      if FarEnough(s.executed, at, cfg.tolerance) then t.executed == s.executed + [at] && At(t, w).Running?
      else t.executed == s.executed && At(t, w) == Releasing(SkippedDrift(at), s.workers[w].until)
  {
    RunPair(cfg, s, Check(w), Record(w));
    GuardRefusesIff(cfg, s, w);
  }

  /** In every punctual and prompt run, a worker at the guard goes on to execute exactly when it was scheduled at least the
      tolerance after the last executed run, or as the first. */
  lemma GuardAdmitsIff(cfg: Config, workers: nat, start: int, steps: seq<Step>, w: nat, delay: int)
    requires cfg.hasRedis && cfg.lockTtl >= 1 && cfg.tolerance > 0 && cfg.tolerance + delay <= LAST_RUN_LIFE
    requires AlwaysPunctual(cfg, Initial(workers, start), steps)
    requires AlwaysPrompt(cfg, Initial(workers, start), steps, delay)
    requires At(Run(cfg, Initial(workers, start), steps), w).Checking?
    ensures var s := Run(cfg, Initial(workers, start), steps); var t := Run(cfg, s, [Check(w), Record(w)]);
      var at := At(s, w).scheduledAt;
      if FarEnough(s.executed, at, cfg.tolerance) then t.executed == s.executed + [at] && At(t, w).Running?
      else t.executed == s.executed && At(t, w) == Releasing(SkippedDrift(at), At(s, w).until)
  {
    RunsAreTracked(cfg, workers, start, steps, delay);
    TrackedGuard(cfg, Run(cfg, Initial(workers, start), steps), w, delay);
  }

  /** From any moment of such a run, an idle worker that runs through at once executes the job exactly when the lock is
      free and the last executed run is at least the tolerance ago. */
  lemma IdleWorkerExecutesIff(cfg: Config, workers: nat, start: int, steps: seq<Step>, w: nat, delay: nat)
    requires cfg.hasRedis && cfg.lockTtl >= 1 && cfg.tolerance > 0 && cfg.tolerance + delay <= LAST_RUN_LIFE
    requires AlwaysPunctual(cfg, Initial(workers, start), steps)
    requires AlwaysPrompt(cfg, Initial(workers, start), steps, delay)
    requires var s := Run(cfg, Initial(workers, start), steps); w < |s.workers| && s.workers[w].Idle?
    ensures var s := Run(cfg, Initial(workers, start), steps);
      Run(cfg, s, [Begin(w), Acquire(w), Check(w), Record(w)]).executed
      == s.executed + if !LockPresent(s) && FarEnough(s.executed, s.now, cfg.tolerance) then [s.now] else []
  {
    RunsAreTracked(cfg, workers, start, steps, delay);
    var s := Run(cfg, Initial(workers, start), steps);
    RunConcat(cfg, s, [Begin(w), Acquire(w)], [Check(w), Record(w)]);
    assert [Begin(w), Acquire(w)] + [Check(w), Record(w)] == [Begin(w), Acquire(w), Check(w), Record(w)];
    var entered := Run(cfg, s, [Begin(w), Acquire(w)]);
    RunPair(cfg, s, Begin(w), Acquire(w));
    if LockPresent(s) {
      assert At(entered, w).Idle? && entered.executed == s.executed;
      RunPair(cfg, entered, Check(w), Record(w));
      assert s.executed + [] == s.executed;
    } else {
      Enters(cfg, s, w);
      TrackedGuard(cfg, entered, w, delay);
      assert s.executed + [] == s.executed;
    }
  }

  // ---- What the premises are for ----

  lemma RunSnoc(cfg: Config, s: State, steps: seq<Step>, step: Step)
    ensures Run(cfg, s, steps + [step]) == Apply(cfg, Run(cfg, s, steps), step)
  {
    assert (steps + [step])[..|steps|] == steps;
  }

  lemma RunPair(cfg: Config, s: State, one: Step, two: Step)
    ensures Run(cfg, s, [one, two]) == Apply(cfg, Apply(cfg, s, one), two)
  {
    RunSnoc(cfg, s, [], one);
    RunSnoc(cfg, s, [one], two);
    assert [] + [one] == [one] && [one] + [two] == [one, two];
  }

  lemma {:induction false} RunConcat(cfg: Config, s: State, first: seq<Step>, rest: seq<Step>)
    ensures Run(cfg, s, first + rest) == Run(cfg, Run(cfg, s, first), rest)
  {
    if rest == [] {
      assert first + rest == first;
    } else {
      RunConcat(cfg, s, first, rest[..|rest| - 1]);
      assert (first + rest)[..|first + rest| - 1] == first + rest[..|rest| - 1];
    }
  }

  /** A worker that starts while the key is absent gets in. */
  lemma Enters(cfg: Config, s: State, w: nat)
    requires cfg.hasRedis && cfg.lockTtl >= 1 && w < |s.workers| && s.workers[w].Idle? && !LockPresent(s)
    ensures var until := s.now + cfg.lockTtl * SECOND;
      Run(cfg, s, [Begin(w), Acquire(w)])
      == s.(workers := s.workers[w := Checking(s.now, Some(until))], lock := Some(until))
  {
    var t := Apply(cfg, s, Begin(w));
    assert [Begin(w), Acquire(w)][..1] == [Begin(w)] && [Begin(w)][..0] == [];
    assert Run(cfg, s, [Begin(w)]) == t;
    assert t.workers[w := Checking(s.now, Some(s.now + cfg.lockTtl * SECOND))]
        == s.workers[w := Checking(s.now, Some(s.now + cfg.lockTtl * SECOND))];
  }

  const RUN_THROUGH: seq<Step> := [Check(0), Record(0), Finish(0, true), Release(0, true)]

  /** Check and record bring worker 0 to the end of its job or past it, and leave the rest of the workers alone. */
  lemma ChecksAndRecords(cfg: Config, s: State)
    requires |s.workers| > 0 && s.workers[0].Checking?
    ensures var t := Run(cfg, s, [Check(0), Record(0)]);
      && t.now == s.now && |t.workers| == |s.workers| && t.workers[1..] == s.workers[1..]
      && (t.workers[0].Running? || t.workers[0].Releasing?) && t.workers[0].until == s.workers[0].until
  {
    RunPair(cfg, s, Check(0), Record(0));
  }

  lemma FinishesAndReleases(cfg: Config, s: State)
    requires |s.workers| > 0 && (s.workers[0].Running? || s.workers[0].Releasing?) && s.workers[0].until.Some?
    ensures var t := Run(cfg, s, [Finish(0, true), Release(0, true)]);
      t.now == s.now && t.lock == None && t.workers == [Idle] + s.workers[1..]
  {
    RunPair(cfg, s, Finish(0, true), Release(0, true));
  }

  /** From the check on, worker 0 leaves again, and takes the key with it, whoever's it is. */
  lemma LeavesWithKey(cfg: Config, s: State)
    requires |s.workers| > 0 && s.workers[0].Checking? && s.workers[0].until.Some?
    ensures var t := Run(cfg, s, RUN_THROUGH);
      t.now == s.now && t.lock == None && t.workers == [Idle] + s.workers[1..]
  {
    ChecksAndRecords(cfg, s);
    FinishesAndReleases(cfg, Run(cfg, s, [Check(0), Record(0)]));
    RunConcat(cfg, s, [Check(0), Record(0)], [Finish(0, true), Release(0, true)]);
    assert RUN_THROUGH == [Check(0), Record(0)] + [Finish(0, true), Release(0, true)];
  }

  /** Release deletes by key, not by owner. For every time to live there is a run in which nobody ever holds the lock for
      longer than exactly that time, and yet two workers end up inside together, both well within their own time. */
  lemma LateReleaseAdmitsTwo(cfg: Config) returns (steps: seq<Step>)
    requires cfg.hasRedis && cfg.lockTtl >= 1
    ensures var s := Run(cfg, Initial(3, 0), steps);
      Punctual(s) && |s.workers| == 3 && Holds(s.workers[1]) && Holds(s.workers[2])
    ensures AlwaysHeldAtMost(cfg, Initial(3, 0), steps, cfg.lockTtl * SECOND)
  {
    var ttl := cfg.lockTtl * SECOND;
    var s0 := Initial(3, 0);
    var enter0, enter1, enter2 := [Begin(0), Acquire(0)], [Begin(1), Acquire(1)], [Begin(2), Acquire(2)];
    Enters(cfg, s0, 0);
    var s1 := Run(cfg, s0, enter0);
    var s2 := Apply(cfg, s1, Tick(ttl));
    RunSnoc(cfg, s0, enter0, Tick(ttl));
    Enters(cfg, s2, 1);
    var s3 := Run(cfg, s2, enter1);
    RunConcat(cfg, s0, enter0 + [Tick(ttl)], enter1);
    LeavesWithKey(cfg, s3);
    var s4 := Run(cfg, s3, RUN_THROUGH);
    RunConcat(cfg, s0, enter0 + [Tick(ttl)] + enter1, RUN_THROUGH);
    Enters(cfg, s4, 2);
    RunConcat(cfg, s0, enter0 + [Tick(ttl)] + enter1 + RUN_THROUGH, enter2);
    steps := enter0 + [Tick(ttl)] + enter1 + RUN_THROUGH + enter2;
    HeldWithinRun(cfg, 3, 0, steps, ttl);
  }

  /** The bound on the delay is sharp: once tolerance plus delay exceed the life of the last-run key, some run
      whose workers are punctual and prompt at its end executes the job twice closer than the tolerance. */
  lemma SlowCheckBreaksSpacing(cfg: Config, delay: int) returns (steps: seq<Step>)
    requires cfg.hasRedis && cfg.lockTtl >= 1 && cfg.tolerance > 0
    requires 0 <= delay <= LAST_RUN_LIFE < cfg.tolerance + delay
    ensures AlwaysPunctual(cfg, Initial(2, 0), steps) && AlwaysPrompt(cfg, Initial(2, 0), steps, delay)
    ensures !Spaced(Run(cfg, Initial(2, 0), steps).executed, cfg.tolerance)
  {
    var s0 := Initial(2, 0);
    var first := FirstRun(cfg, delay);
    var second := SecondRun(cfg, delay);
    AlwaysConcat(cfg, s0, first, second, delay);
    RunConcat(cfg, s0, first, second);
    steps := first + second;
    var executed := Run(cfg, s0, steps).executed;
    assert executed[1] - executed[0] < cfg.tolerance;
  }

  lemma {:induction false} PromptMonotone(cfg: Config, s: State, steps: seq<Step>, delay: int, more: int)
    requires AlwaysPrompt(cfg, s, steps, delay) && delay <= more
    ensures AlwaysPrompt(cfg, s, steps, more)
  {
    if steps != [] {
      PromptMonotone(cfg, s, steps[..|steps| - 1], delay, more);
    }
  }

  /** Under punctual holders, every run keeps executions the tolerance apart exactly when tolerance plus the longest
      delay to the check fit into the life of the last-run key. */
  lemma SpacingIff(cfg: Config, delay: nat)
    requires cfg.hasRedis && cfg.lockTtl >= 1 && cfg.tolerance > 0
    ensures cfg.tolerance + delay <= LAST_RUN_LIFE <==>
      forall workers: nat, start, steps ::
        AlwaysPunctual(cfg, Initial(workers, start), steps) && AlwaysPrompt(cfg, Initial(workers, start), steps, delay) ==>
          Spaced(Run(cfg, Initial(workers, start), steps).executed, cfg.tolerance)
  {
    if cfg.tolerance + delay <= LAST_RUN_LIFE {
      forall workers: nat, start, steps |
        AlwaysPunctual(cfg, Initial(workers, start), steps) && AlwaysPrompt(cfg, Initial(workers, start), steps, delay)
        ensures Spaced(Run(cfg, Initial(workers, start), steps).executed, cfg.tolerance)
      {
        RunsAreTracked(cfg, workers, start, steps, delay);
      }
    } else {
      var sharp := if delay <= LAST_RUN_LIFE then delay else LAST_RUN_LIFE;
      var steps := SlowCheckBreaksSpacing(cfg, sharp);
      PromptMonotone(cfg, Initial(2, 0), steps, sharp, delay);
    }
  }

  /** Worker 1 starts too early, but looks only when the last run is forgotten. */
  lemma SecondRun(cfg: Config, delay: int) returns (steps: seq<Step>)
    requires cfg.hasRedis && cfg.lockTtl >= 1 && cfg.tolerance > 0 && 0 <= delay <= LAST_RUN_LIFE
    ensures var s := State(0, None, Some(LastRun(Stamp(0), LAST_RUN_LIFE)), [Idle, Idle], [0], [Ran(0, true)]);
      AlwaysPunctual(cfg, s, steps) && AlwaysPrompt(cfg, s, steps, delay)
      && Run(cfg, s, steps).executed == [0, LAST_RUN_LIFE - delay]
  {
    var s := State(0, None, Some(LastRun(Stamp(0), LAST_RUN_LIFE)), [Idle, Idle], [0], [Ran(0, true)]);
    var late := LAST_RUN_LIFE + cfg.lockTtl * SECOND;
    steps := [Tick(LAST_RUN_LIFE - delay), Begin(1), Tick(LAST_RUN_LIFE), Acquire(1), Check(1), Record(1)];
    var s1 := s.(now := LAST_RUN_LIFE - delay);
    var s2 := s1.(workers := [Idle, Started(LAST_RUN_LIFE - delay)]);
    var s3 := s2.(now := LAST_RUN_LIFE);
    var s4 := s3.(workers := [Idle, Checking(LAST_RUN_LIFE - delay, Some(late))], lock := Some(late));
    var s5 := s4.(workers := [Idle, Recording(LAST_RUN_LIFE - delay, Some(late))]);
    var s6 := s5.(workers := [Idle, Running(LAST_RUN_LIFE - delay, Some(late))], executed := [0, LAST_RUN_LIFE - delay],
                  lastRun := Some(LastRun(Stamp(LAST_RUN_LIFE - delay), LAST_RUN_LIFE + LAST_RUN_LIFE)));
    FollowStates(cfg, [s, s1, s2, s3, s4, s5, s6], steps, delay);
  }

  /** Worker 0 runs the job at time 0 and gives the lock back at once. */
  lemma FirstRun(cfg: Config, delay: int) returns (steps: seq<Step>)
    requires cfg.hasRedis && cfg.lockTtl >= 1 && cfg.tolerance > 0 && 0 <= delay
    ensures AlwaysPunctual(cfg, Initial(2, 0), steps) && AlwaysPrompt(cfg, Initial(2, 0), steps, delay)
    ensures Run(cfg, Initial(2, 0), steps)
         == State(0, None, Some(LastRun(Stamp(0), LAST_RUN_LIFE)), [Idle, Idle], [0], [Ran(0, true)])
  {
    var ttl := cfg.lockTtl * SECOND;
    steps := [Begin(0), Acquire(0), Check(0), Record(0), Finish(0, true), Release(0, true)];
    var s0 := Initial(2, 0);
    var s1 := s0.(workers := [Started(0), Idle]);
    var s2 := s1.(workers := [Checking(0, Some(ttl)), Idle], lock := Some(ttl));
    var s3 := s2.(workers := [Recording(0, Some(ttl)), Idle]);
    var s4 := s3.(workers := [Running(0, Some(ttl)), Idle], executed := [0],
                  lastRun := Some(LastRun(Stamp(0), LAST_RUN_LIFE)));
    var s5 := s4.(workers := [Releasing(Ran(0, true), Some(ttl)), Idle]);
    var s6 := s5.(workers := [Idle, Idle], lock := None, outcomes := [Ran(0, true)]);
    FollowStates(cfg, [s0, s1, s2, s3, s4, s5, s6], steps, delay);
  }

  lemma {:induction false} AlwaysConcat(cfg: Config, s: State, first: seq<Step>, rest: seq<Step>, delay: int)
    requires AlwaysPunctual(cfg, s, first) && AlwaysPrompt(cfg, s, first, delay)
    requires AlwaysPunctual(cfg, Run(cfg, s, first), rest) && AlwaysPrompt(cfg, Run(cfg, s, first), rest, delay)
    ensures AlwaysPunctual(cfg, s, first + rest) && AlwaysPrompt(cfg, s, first + rest, delay)
    decreases |rest|
  {
    RunConcat(cfg, s, first, rest);
    if rest == [] {
      assert first + rest == first;
    } else {
      AlwaysConcat(cfg, s, first, rest[..|rest| - 1], delay);
      assert (first + rest)[..|first + rest| - 1] == first + rest[..|rest| - 1];
    }
  }

  /** A listed sequence of states, each the last one's successor, is the run. */
  lemma {:induction false} FollowStates(cfg: Config, states: seq<State>, steps: seq<Step>, delay: int)
    requires |states| == |steps| + 1
    requires forall i :: 0 <= i < |steps| ==> states[i + 1] == Apply(cfg, states[i], steps[i])
    requires forall i :: 0 <= i < |states| ==> Punctual(states[i]) && Prompt(states[i], delay)
    ensures Run(cfg, states[0], steps) == Last(states)
    ensures AlwaysPunctual(cfg, states[0], steps) && AlwaysPrompt(cfg, states[0], steps, delay)
  {
    if steps != [] {
      FollowStates(cfg, states[..|steps|], steps[..|steps| - 1], delay);
    }
  }

  // ---- The wrapper as it is written ----

  class Redis {
    var lock: Option<int>
    var lastRun: Option<LastRun>

    /** SET key NX EX ttl on the lock key. */
    method SetLockIfAbsent(now: int, ttl: int) returns (acquired: bool)
      modifies `lock
      ensures acquired == !(old(lock).Some? && now < old(lock).value)
      ensures lock == if acquired then Some(now + ttl * SECOND) else old(lock)
    {
      acquired := lock.None? || lock.value <= now;
      if acquired {
        lock := Some(now + ttl * SECOND);
      }
    }

    method DeleteLock()
      modifies `lock
      ensures lock == None
    {
      lock := None;
    }

    method GetLastRun(now: int) returns (r: Option<LastRunValue>)
      ensures r == if lastRun.Some? && now < lastRun.value.expiresAt then Some(lastRun.value.value) else None
    {
      r := if lastRun.Some? && now < lastRun.value.expiresAt then Some(lastRun.value.value) else None;
    }

    method SetLastRun(value: LastRunValue, now: int)
      modifies `lastRun
      ensures lastRun == Some(LastRun(value, now + LAST_RUN_LIFE))
    {
      lastRun := Some(LastRun(value, now + LAST_RUN_LIFE));
    }
  }

  /** The clock at each await of one pass through the wrapper. */
  datatype Times = Times(scheduled: int, lock: int, check: int, record: int, finish: int, release: int)

  predicate Ordered(t: Times) {
    t.scheduled <= t.lock <= t.check <= t.record <= t.finish <= t.release
  }

  /** One worker's steps with nobody else about: to the lock, past the guard, through the job, and out. */
  function ToLock(t: Times): seq<Step> { [Begin(0), Tick(t.lock), Acquire(0)] }
  function ToGuard(t: Times): seq<Step> { [Tick(t.check), Check(0)] }
  function ToEnd(t: Times, ok: bool): seq<Step> { [Tick(t.record), Record(0), Tick(t.finish), Finish(0, ok)] }
  function ToExit(t: Times, deleted: bool): seq<Step> { [Tick(t.release), Release(0, deleted)] }

  function Alone(t: Times, ok: bool, deleted: bool): seq<Step> {
    ToLock(t) + ToGuard(t) + ToEnd(t, ok) + ToExit(t, deleted)
  }

  lemma LockPhase(cfg: Config, t: Times, lock: Option<int>, lastRun: Option<LastRun>)
    requires Ordered(t)
    ensures var s := Run(cfg, State(t.scheduled, lock, lastRun, [Idle], [], []), ToLock(t));
      s == if !cfg.hasRedis || cfg.lockTtl <= 0 then
             State(t.lock, lock, lastRun, [Checking(t.scheduled, None)], [], [])
           else if lock.Some? && t.lock < lock.value then
             State(t.lock, lock, lastRun, [Idle], [], [SkippedDuplicate(t.scheduled)])
           else
             var until := Some(t.lock + cfg.lockTtl * SECOND);
             State(t.lock, until, lastRun, [Checking(t.scheduled, until)], [], [])
  {
    var s := State(t.scheduled, lock, lastRun, [Idle], [], []);
    RunPair(cfg, s, Begin(0), Tick(t.lock));
    RunSnoc(cfg, s, [Begin(0), Tick(t.lock)], Acquire(0));
    assert ToLock(t) == [Begin(0), Tick(t.lock)] + [Acquire(0)];
    assert Apply(cfg, Apply(cfg, s, Begin(0)), Tick(t.lock))
        == State(t.lock, lock, lastRun, [Started(t.scheduled)], [], []);
  }

  lemma GuardPhase(cfg: Config, t: Times, lock: Option<int>, lastRun: Option<LastRun>, until: Option<int>)
    requires Ordered(t)
    ensures var s := Run(cfg, State(t.lock, lock, lastRun, [Checking(t.scheduled, until)], [], []), ToGuard(t));
      s == if !cfg.hasRedis || cfg.tolerance <= 0 then
             State(t.check, lock, lastRun, [Running(t.scheduled, until)], [t.scheduled], [])
           else if TooSoon(cfg, lastRun, t.check, t.scheduled) then
             State(t.check, lock, lastRun, [Releasing(SkippedDrift(t.scheduled), until)], [], [])
           else State(t.check, lock, lastRun, [Recording(t.scheduled, until)], [], [])
  {
    RunPair(cfg, State(t.lock, lock, lastRun, [Checking(t.scheduled, until)], [], []), Tick(t.check), Check(0));
  }

  /** The job phase changes the keys only if there is a run to record, and nothing at all once the worker is leaving. */
  lemma JobPhase(cfg: Config, t: Times, s: State, ok: bool)
    requires Ordered(t) && s.now == t.check && |s.workers| == 1 && s.outcomes == []
    requires s.workers[0].Recording? || s.workers[0].Running? ==> s.workers[0].scheduledAt == t.scheduled
    requires s.workers[0].Recording? || s.workers[0].Running? || s.workers[0].Releasing?
    requires s.executed == if s.workers[0].Running? then [t.scheduled] else []
    ensures var r := Run(cfg, s, ToEnd(t, ok));
      r == if s.workers[0].Releasing? then s.(now := t.finish)
           else
             s.(now := t.finish, workers := [Releasing(Ran(t.scheduled, ok), s.workers[0].until)],
                executed := [t.scheduled],
                lastRun := if s.workers[0].Running? then s.lastRun
                           else Some(LastRun(Stamp(t.scheduled), t.record + LAST_RUN_LIFE)))
  {
    RunPair(cfg, s, Tick(t.record), Record(0));
    var recorded := Run(cfg, s, [Tick(t.record), Record(0)]);
    RunPair(cfg, recorded, Tick(t.finish), Finish(0, ok));
    RunConcat(cfg, s, [Tick(t.record), Record(0)], [Tick(t.finish), Finish(0, ok)]);
    assert ToEnd(t, ok) == [Tick(t.record), Record(0)] + [Tick(t.finish), Finish(0, ok)];
  }

  lemma ExitPhase(cfg: Config, t: Times, s: State, deleted: bool)
    requires Ordered(t) && s.now == t.finish && |s.workers| == 1 && s.outcomes == [] && s.workers[0].Releasing?
    ensures Run(cfg, s, ToExit(t, deleted))
         == s.(now := t.release, workers := [Idle], outcomes := [s.workers[0].outcome],
               lock := if s.workers[0].until.Some? && deleted then None else s.lock)
  {
    RunPair(cfg, s, Tick(t.release), Release(0, deleted));
  }

  /** Without a worker under way, steps that start none only let time pass. */
  lemma {:induction false} IdleStaysIdle(cfg: Config, s: State, steps: seq<Step>)
    requires s.workers == [Idle] && forall i :: 0 <= i < |steps| ==> !steps[i].Begin?
    ensures Run(cfg, s, steps) == s.(now := Run(cfg, s, steps).now)
  {
    if steps != [] {
      IdleStaysIdle(cfg, s, steps[..|steps| - 1]);
    }
  }

  lemma AlonePhases(cfg: Config, s: State, t: Times, ok: bool, deleted: bool)
    ensures Run(cfg, s, Alone(t, ok, deleted))
         == Run(cfg, Run(cfg, Run(cfg, Run(cfg, s, ToLock(t)), ToGuard(t)), ToEnd(t, ok)), ToExit(t, deleted))
    ensures Run(cfg, s, Alone(t, ok, deleted))
         == Run(cfg, Run(cfg, s, ToLock(t)), ToGuard(t) + ToEnd(t, ok) + ToExit(t, deleted))
  {
    RunConcat(cfg, s, ToLock(t), ToGuard(t));
    RunConcat(cfg, s, ToLock(t) + ToGuard(t), ToEnd(t, ok));
    RunConcat(cfg, s, ToLock(t) + ToGuard(t) + ToEnd(t, ok), ToExit(t, deleted));
    RunConcat(cfg, s, ToLock(t), ToGuard(t) + ToEnd(t, ok) + ToExit(t, deleted));
    assert Alone(t, ok, deleted) == ToLock(t) + (ToGuard(t) + ToEnd(t, ok) + ToExit(t, deleted));
  }

  /** The wrapper, run without interruption: early returns, the lock flag and the final release leave Redis and the
      caller exactly where the machine's atomic steps do. */
  method ExecuteWrapper(cfg: Config, redis: Redis, t: Times, ok: bool, deleteWorks: bool) returns (outcome: Outcome)
    requires Ordered(t)
    modifies redis
    ensures var s := Run(cfg, State(t.scheduled, old(redis.lock), old(redis.lastRun), [Idle], [], []),
                         Alone(t, ok, deleteWorks));
      redis.lock == s.lock && redis.lastRun == s.lastRun && s.outcomes == [outcome] && s.workers == [Idle]
      && s.executed == if outcome.Ran? then [t.scheduled] else []
    ensures outcome ==
      if cfg.hasRedis && cfg.lockTtl > 0 && old(redis.lock).Some? && t.lock < old(redis.lock).value then
        SkippedDuplicate(t.scheduled)
      else if cfg.hasRedis && cfg.tolerance > 0 && old(redis.lastRun).Some? && t.check < old(redis.lastRun).value.expiresAt
              && old(redis.lastRun).value.value.Stamp?
              && t.scheduled - old(redis.lastRun).value.value.at < cfg.tolerance then
        SkippedDrift(t.scheduled)
      else Ran(t.scheduled, ok)
    ensures redis.lock ==
      if !cfg.hasRedis || cfg.lockTtl <= 0 || outcome.SkippedDuplicate? then old(redis.lock)
      else if deleteWorks then None
      else Some(t.lock + cfg.lockTtl * SECOND)
    ensures redis.lastRun ==
      if cfg.hasRedis && cfg.tolerance > 0 && outcome.Ran? then Some(LastRun(Stamp(t.scheduled), t.record + 86_400 * SECOND))
      else old(redis.lastRun)
  {
    ghost var s0 := State(t.scheduled, redis.lock, redis.lastRun, [Idle], [], []);
    AlonePhases(cfg, s0, t, ok, deleteWorks);
    LockPhase(cfg, t, redis.lock, redis.lastRun);
    ghost var s1 := Run(cfg, s0, ToLock(t));
    var lockAcquired := false;
    if cfg.hasRedis && cfg.lockTtl > 0 {
      lockAcquired := redis.SetLockIfAbsent(t.lock, cfg.lockTtl);
      if !lockAcquired {
        IdleStaysIdle(cfg, s1, ToGuard(t) + ToEnd(t, ok) + ToExit(t, deleteWorks));
        return SkippedDuplicate(t.scheduled);
      }
    }
    GuardPhase(cfg, t, s1.lock, s1.lastRun, s1.workers[0].until);
    ghost var s2 := Run(cfg, s1, ToGuard(t));
    JobPhase(cfg, t, s2, ok);
    ghost var s3 := Run(cfg, s2, ToEnd(t, ok));
    ExitPhase(cfg, t, s3, deleteWorks);
    if cfg.hasRedis {
      if cfg.tolerance > 0 {
        var lastRun := redis.GetLastRun(t.check);
        if lastRun.Some? && lastRun.value.Stamp? && t.scheduled - lastRun.value.at < cfg.tolerance {
          ReleaseLock(redis, lockAcquired, deleteWorks);
          return SkippedDrift(t.scheduled);
        }
        redis.SetLastRun(Stamp(t.scheduled), t.record);
      }
    }
    outcome := Ran(t.scheduled, ok);
    if cfg.hasRedis {
      ReleaseLock(redis, lockAcquired, deleteWorks);
    }
  }

  /** Best effort: a delete that raises leaves the key to its time to live. */
  method ReleaseLock(redis: Redis, acquired: bool, deleteWorks: bool)
    modifies redis`lock
    ensures redis.lock == if acquired && deleteWorks then None else old(redis.lock)
  {
    if acquired && deleteWorks {
      redis.DeleteLock();
    }
  }
}
