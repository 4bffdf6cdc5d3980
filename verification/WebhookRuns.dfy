/** Replay safety over whole runs: intakes one after the other, with status changes and cleanups in between. */
module WebhookRuns {
  import opened Common
  import opened Webhooks

  datatype Op =
    | Ingest(request: Request)
    | Mark(row: nat, status: Status, at: int)
    | Scrub(at: int)
    | Purge(at: int)

  /** The table, the clock after the last operation, and every request ever persisted, deleted rows included. */
  datatype Ledger = Ledger(now: int, rows: seq<Event>, nextId: nat, history: seq<Request>)

  const EMPTY: seq<Event> := []

  function Start(now: int): Ledger {
    Ledger(now, EMPTY, 1, [])
  }

  function Apply(cfg: Config, s: Ledger, op: Op): Ledger {
    match op
    case Ingest(r) =>
      if Persists(cfg, s.rows, r)
      then Ledger(r.finishedAt, s.rows + [Stored(cfg, s.nextId, r)], s.nextId + 1, s.history + [r])
      else s.(now := r.finishedAt)
    case Mark(row, status, at) =>
      if row < |s.rows| then s.(now := at, rows := s.rows[row := s.rows[row].(status := status)]) else s.(now := at)
    case Scrub(at) => s.(now := at, rows := Scrubbed(cfg, at, s.rows))
    case Purge(at) => s.(now := at, rows := Purged(cfg, at, s.rows))
  }

  /** The operation reads the clock no earlier than the one before it, and in order. */
  predicate Timely(s: Ledger, op: Op) {
    match op
    case Ingest(r) => s.now <= r.verifiedAt <= r.checkedAt <= r.receivedAt <= r.finishedAt
    case Mark(_, _, at) => s.now <= at
    case Scrub(at) => s.now <= at
    case Purge(at) => s.now <= at
  }

  function Run(cfg: Config, s: Ledger, ops: seq<Op>): Ledger {
    if ops == [] then s else Apply(cfg, Run(cfg, s, ops[..|ops| - 1]), Last(ops))
  }

  predicate TimelyRun(cfg: Config, s: Ledger, ops: seq<Op>) {
    ops == [] || (TimelyRun(cfg, s, ops[..|ops| - 1]) && Timely(Run(cfg, s, ops[..|ops| - 1]), Last(ops)))
  }

  // ---- Safety ----

  /** The row that the request left, whatever has become of its status and payload. */
  predicate Keeps(e: Event, r: Request) {
    var d := r.delivery;
    e.source == d.source && e.endpoint == d.endpoint && e.eventType == d.eventType && e.receivedAt == r.receivedAt
    && e.deliveryId == d.deliveryId && e.eventId == d.eventId && e.sha256 == Some(d.sha256)
  }

  ghost predicate Remembered(rows: seq<Event>, r: Request) {
    exists i :: 0 <= i < |rows| && Keeps(rows[i], r)
  }

  /** A request is forgotten only after its archive period. */
  ghost predicate Recalls(cfg: Config, s: Ledger) {
    forall a :: 0 <= a < |s.history| ==>
      s.history[a].receivedAt <= s.now
      && (Remembered(s.rows, s.history[a]) || s.history[a].receivedAt < s.now - cfg.Archive())
  }

  /** Repeats the earlier request's identity: an identifier they share, or, when it has none itself, type and hash. */
  predicate Repeats(later: Delivery, earlier: Delivery) {
    && later.source == earlier.source && later.endpoint == earlier.endpoint
    && if later.deliveryId.Some? || later.eventId.Some? then
         || (later.deliveryId.Some? && earlier.deliveryId == later.deliveryId)
         || (later.eventId.Some? && earlier.eventId == later.eventId)
       else earlier.eventType == later.eventType && earlier.sha256 == later.sha256
  }

  /** A request is persisted although it repeats an earlier one only outside the window, or once that is forgotten. */
  ghost predicate RepeatsAreLate(cfg: Config, history: seq<Request>) {
    forall a, b :: 0 <= a < b < |history| && Repeats(history[b].delivery, history[a].delivery) ==>
      history[b].checkedAt - history[a].receivedAt > cfg.window
      || history[b].verifiedAt - history[a].receivedAt > cfg.Archive()
  }

  lemma RememberedSurvives(cfg: Config, s: Ledger, op: Op, r: Request)
    requires Remembered(s.rows, r) && Timely(s, op)
    ensures Remembered(Apply(cfg, s, op).rows, r) || (op.Purge? && r.receivedAt < op.at - cfg.Archive())
  {
    var i :| 0 <= i < |s.rows| && Keeps(s.rows[i], r);
    var t := Apply(cfg, s, op);
    if op.Purge? && r.receivedAt < op.at - cfg.Archive() {
    } else if op.Purge? {
      PurgeKeepsFresh(cfg, op.at, s.rows, i, r);
    } else {
      assert Keeps(t.rows[i], r);
    }
  }

  lemma {:induction false} PurgeKeepsFresh(cfg: Config, at: int, rows: seq<Event>, i: nat, r: Request)
    requires i < |rows| && Keeps(rows[i], r) && r.receivedAt >= at - cfg.Archive()
    ensures Remembered(Purged(cfg, at, rows), r)
  {
    var init := rows[..|rows| - 1];
    var kept := Purged(cfg, at, init);
    var all := Purged(cfg, at, rows);
    if i == |rows| - 1 {
      assert all[|kept|] == rows[i];
    } else {
      PurgeKeepsFresh(cfg, at, init, i, r);
      var k :| 0 <= k < |kept| && Keeps(kept[k], r);
      assert all[k] == kept[k];
    }
  }

  lemma ApplyKeepsRecalls(cfg: Config, s: Ledger, op: Op)
    requires Recalls(cfg, s) && Timely(s, op)
    ensures Recalls(cfg, Apply(cfg, s, op))
  {
    var t := Apply(cfg, s, op);
    forall a | 0 <= a < |t.history|
      ensures t.history[a].receivedAt <= t.now
      ensures Remembered(t.rows, t.history[a]) || t.history[a].receivedAt < t.now - cfg.Archive()
    {
      if a < |s.history| {
        if Remembered(s.rows, s.history[a]) {
          RememberedSurvives(cfg, s, op, s.history[a]);
        }
      } else {
        assert Keeps(t.rows[|s.rows|], t.history[a]);
      }
    }
  }

  lemma ApplyKeepsRepeatsLate(cfg: Config, s: Ledger, op: Op)
    requires cfg.replayEnabled && Recalls(cfg, s) && RepeatsAreLate(cfg, s.history) && Timely(s, op)
    ensures RepeatsAreLate(cfg, Apply(cfg, s, op).history)
  {
    if op.Ingest? && Persists(cfg, s.rows, op.request) {
      var r := op.request;
      ClearIff(s.rows, r.delivery, r.checkedAt, cfg.window);
      forall a | 0 <= a < |s.history| && Repeats(r.delivery, s.history[a].delivery)
        ensures r.checkedAt - s.history[a].receivedAt > cfg.window || r.verifiedAt - s.history[a].receivedAt > cfg.Archive()
      {
        if Remembered(s.rows, s.history[a]) {
          var i :| 0 <= i < |s.rows| && Keeps(s.rows[i], s.history[a]);
          assert !Candidate(r.delivery, r.checkedAt - cfg.window, s.rows[i]);
        }
      }
    }
  }

  lemma {:induction false} RunIsSafe(cfg: Config, start: int, ops: seq<Op>)
    requires cfg.replayEnabled && TimelyRun(cfg, Start(start), ops)
    ensures Recalls(cfg, Run(cfg, Start(start), ops)) && RepeatsAreLate(cfg, Run(cfg, Start(start), ops).history)
  {
    if ops != [] {
      var before := ops[..|ops| - 1];
      RunIsSafe(cfg, start, before);
      ApplyKeepsRecalls(cfg, Run(cfg, Start(start), before), Last(ops));
      ApplyKeepsRepeatsLate(cfg, Run(cfg, Start(start), before), Last(ops));
    }
  }

  /** In any run, of two persisted deliveries of one identity the later one was received more than the window after the
      earlier, even if the earlier has been deleted since. */
  lemma ReplayWindowSafety(cfg: Config, start: int, ops: seq<Op>, a: nat, b: nat)
    requires cfg.replayEnabled && cfg.Archive() >= cfg.window && TimelyRun(cfg, Start(start), ops)
    requires var h := Run(cfg, Start(start), ops).history;
      a < b < |h| && Repeats(h[b].delivery, h[a].delivery)
    ensures var h := Run(cfg, Start(start), ops).history;
      h[b].receivedAt - h[a].receivedAt >= h[b].checkedAt - h[a].receivedAt > cfg.window
  {
    RunIsSafe(cfg, start, ops);
    HistoryIsOrdered(cfg, start, ops);
  }

  /** Every persisted request was admitted, and read the clock in order. */
  ghost predicate Orderly(cfg: Config, history: seq<Request>) {
    forall a :: 0 <= a < |history| ==>
      Admission(cfg, history[a]).None? && history[a].verifiedAt <= history[a].checkedAt <= history[a].receivedAt
  }

  lemma {:induction false} HistoryIsOrdered(cfg: Config, start: int, ops: seq<Op>)
    requires TimelyRun(cfg, Start(start), ops)
    ensures Orderly(cfg, Run(cfg, Start(start), ops).history)
  {
    if ops != [] {
      var before := ops[..|ops| - 1];
      HistoryIsOrdered(cfg, start, before);
      ApplyKeepsOrderly(cfg, Run(cfg, Start(start), before), Last(ops));
    }
  }

  lemma ApplyKeepsOrderly(cfg: Config, s: Ledger, op: Op)
    requires Orderly(cfg, s.history) && Timely(s, op)
    ensures Orderly(cfg, Apply(cfg, s, op).history)
  {
  }

  // ---- Who gets in ----

  /** Valid, and signed as the configuration asks: with a verifier by its source and not too long ago, without one only if
      signatures are not asked for. */
  predicate Authentic(cfg: Config, r: Request) {
    r.valid && if cfg.hasVerifier then r.genuine && r.verifiedAt - r.signedAt <= cfg.maxAge else !cfg.verificationEnabled
  }

  /** A request is persisted exactly when it is authentic and, with replay protection, no event in the table was seen in
      the window. Otherwise it leaves no trace. */
  lemma PersistedIff(cfg: Config, s: Ledger, r: Request)
    ensures var t := Apply(cfg, s, Ingest(r));
      if Authentic(cfg, r) && (cfg.replayEnabled ==> forall e :: e in s.rows ==> !Seen(r.delivery, r.checkedAt - cfg.window, e))
      then t.history == s.history + [r] && |t.rows| == |s.rows| + 1
      else t.history == s.history && t.rows == s.rows
  {
    VerdictTells(s.rows, r.delivery, r.checkedAt, cfg.window);
  }

  /** Nothing forged, stale or invalid is ever persisted, in any run. */
  lemma {:induction false} HistoryIsAuthentic(cfg: Config, start: int, ops: seq<Op>)
    ensures forall r :: r in Run(cfg, Start(start), ops).history ==> Authentic(cfg, r)
  {
    if ops != [] {
      HistoryIsAuthentic(cfg, start, ops[..|ops| - 1]);
      if Last(ops).Ingest? {
        PersistedIff(cfg, Run(cfg, Start(start), ops[..|ops| - 1]), Last(ops).request);
      }
    }
  }

  /** A request whose every reading of the clock after its signing says the same. */
  function Instant(d: Delivery, signedAt: int, at: int, enqueued: Result<Fields, string>): Request {
    Request(d, true, map[], map[], true, signedAt, at, at, at, at, enqueued)
  }

  /** A delivery that could not be queued is forgotten once its archive period is over, and is then persisted again. */
  lemma ForgottenIsPersistedAgain(cfg: Config, d: Delivery, signedAgainAt: int) returns (ops: seq<Op>)
    requires cfg.Valid() && (cfg.verificationEnabled ==> cfg.hasVerifier)
    requires 0 <= signedAgainAt <= cfg.Archive() + 1
    requires cfg.hasVerifier ==> cfg.Archive() + 1 - signedAgainAt <= cfg.maxAge
    ensures TimelyRun(cfg, Start(0), ops)
    ensures var at := cfg.Archive() + 1;
      Run(cfg, Start(0), ops).history == [Instant(d, 0, 0, Err("queue down")), Instant(d, signedAgainAt, at, Ok(map[]))]
  {
    var at := cfg.Archive() + 1;
    var one, two := Instant(d, 0, 0, Err("queue down")), Instant(d, signedAgainAt, at, Ok(map[]));
    ops := [Ingest(one), Purge(at), Ingest(two)];
    PersistedAfterPurge(cfg, one, two, at);
  }

  /** Persisted repeats are received more than the window apart. */
  ghost predicate WindowKept(cfg: Config, history: seq<Request>) {
    forall a, b :: 0 <= a < b < |history| && Repeats(history[b].delivery, history[a].delivery) ==>
      history[b].receivedAt - history[a].receivedAt > cfg.window
  }

  lemma {:induction false} NothingWithoutVerifier(cfg: Config, start: int, ops: seq<Op>)
    requires cfg.verificationEnabled && !cfg.hasVerifier
    ensures Run(cfg, Start(start), ops).history == []
  {
    if ops != [] {
      NothingWithoutVerifier(cfg, start, ops[..|ops| - 1]);
    }
  }

  /** Replay protection keeps the window in every run exactly when events are archived no sooner than it closes, or when
      every request is refused for want of a verifier. */
  lemma WindowKeptIff(cfg: Config)
    requires cfg.Valid() && cfg.replayEnabled
    ensures cfg.Archive() >= cfg.window || (cfg.verificationEnabled && !cfg.hasVerifier) <==>
      forall start, ops :: TimelyRun(cfg, Start(start), ops) ==> WindowKept(cfg, Run(cfg, Start(start), ops).history)
  {
    if cfg.verificationEnabled && !cfg.hasVerifier {
      forall start, ops ensures WindowKept(cfg, Run(cfg, Start(start), ops).history) {
        NothingWithoutVerifier(cfg, start, ops);
      }
    } else if cfg.Archive() >= cfg.window {
      forall start, ops | TimelyRun(cfg, Start(start), ops) ensures WindowKept(cfg, Run(cfg, Start(start), ops).history) {
        RunIsSafe(cfg, start, ops);
        HistoryIsOrdered(cfg, start, ops);
      }
    } else {
      var d := Delivery("github", "push", "push", Some("1"), None, "", "");
      var ops := ForgottenIsPersistedAgain(cfg, d, cfg.Archive() + 1);
      var h := Run(cfg, Start(0), ops).history;
      assert Repeats(h[1].delivery, h[0].delivery) && h[1].receivedAt - h[0].receivedAt <= cfg.window;
    }
  }

  /** A request that is stored but cannot be queued leaves a final row, which the archive period then deletes. */
  lemma PurgedAfterFailure(cfg: Config, r: Request, at: int)
    requires Admission(cfg, r).None? && r.enqueued.Err? && r.receivedAt < at - cfg.Archive()
    ensures Apply(cfg, Start(0), Ingest(r)) == Ledger(r.finishedAt, [Stored(cfg, 1, r)], 2, [r])
    ensures Apply(cfg, Apply(cfg, Start(0), Ingest(r)), Purge(at)) == Ledger(at, [], 2, [r])
  {
    FirstPersisted(cfg, r);
    var row := Stored(cfg, 1, r);
    assert Purgeable(cfg, at, row);
    assert [row][..0] == [] && Purged(cfg, at, [row][..0]) == [];
  }

  lemma PersistedAfterPurge(cfg: Config, one: Request, two: Request, at: int)
    requires Admission(cfg, one).None? && one.enqueued.Err? && one.receivedAt < at - cfg.Archive() && Admission(cfg, two).None?
    requires Timely(Start(0), Ingest(one)) && one.finishedAt <= at
    requires at <= two.verifiedAt <= two.checkedAt <= two.receivedAt <= two.finishedAt
    ensures TimelyRun(cfg, Start(0), [Ingest(one), Purge(at), Ingest(two)])
    ensures Run(cfg, Start(0), [Ingest(one), Purge(at), Ingest(two)]).history == [one, two]
  {
    PurgedAfterFailure(cfg, one, at);
    RunThree(cfg, Start(0), Ingest(one), Purge(at), Ingest(two));
    assert Protect([], two.delivery, two.checkedAt, cfg.window) == Clear;
  }

  lemma RunThree(cfg: Config, s: Ledger, one: Op, two: Op, three: Op)
    ensures Run(cfg, s, [one, two, three]) == Apply(cfg, Apply(cfg, Apply(cfg, s, one), two), three)
    ensures TimelyRun(cfg, s, [one, two, three]) <==>
      Timely(s, one) && Timely(Apply(cfg, s, one), two) && Timely(Apply(cfg, Apply(cfg, s, one), two), three)
  {
    var a, b, c := [one], [one, two], [one, two, three];
    assert a[..0] == [] && b[..1] == a && c[..2] == b;
    assert Run(cfg, s, []) == s && TimelyRun(cfg, s, []);
    assert Run(cfg, s, a) == Apply(cfg, s, one) && TimelyRun(cfg, s, a) == Timely(s, one);
    assert Run(cfg, s, b) == Apply(cfg, Run(cfg, s, a), two);
    assert TimelyRun(cfg, s, b) == (TimelyRun(cfg, s, a) && Timely(Run(cfg, s, a), two));
  }

  // ---- Signed deliveries ----

  /** The clock never runs more than lag from the signature check to the replay check of a request, nor does a
      signature come from the future. */
  ghost predicate Plausible(history: seq<Request>, lag: int) {
    forall a :: 0 <= a < |history| ==>
      history[a].signedAt <= history[a].verifiedAt && history[a].checkedAt - history[a].verifiedAt <= lag
  }

  ghost predicate NoneTwice(history: seq<Request>) {
    forall a, b :: 0 <= a < b < |history| ==>
      history[a].delivery != history[b].delivery || history[a].signedAt != history[b].signedAt
  }

  /** With the window at least the signature age plus that lag, and the archive period at least the signature age, the
      same signed delivery is never persisted twice: a signature still good later than the window, or after the delivery
      was forgotten, is another one. */
  lemma SignedDeliveryPersistedOnce(cfg: Config, start: int, ops: seq<Op>, lag: int)
    requires cfg.replayEnabled && cfg.hasVerifier && cfg.window >= cfg.maxAge + lag && cfg.Archive() >= cfg.maxAge
    requires TimelyRun(cfg, Start(start), ops) && Plausible(Run(cfg, Start(start), ops).history, lag)
    ensures NoneTwice(Run(cfg, Start(start), ops).history)
  {
    var h := Run(cfg, Start(start), ops).history;
    RunIsSafe(cfg, start, ops);
    HistoryIsOrdered(cfg, start, ops);
    forall a, b | 0 <= a < b < |h| && h[a].delivery == h[b].delivery ensures h[a].signedAt != h[b].signedAt {
      assert Repeats(h[b].delivery, h[a].delivery);
      assert SignatureAccepted(cfg, h[b]);
    }
  }

  /** The settings only ask for a window no shorter than the age. Whatever the two are, if some lag takes the age beyond
      the window, one signed delivery can be persisted twice. */
  lemma SlowCheckPersistsTwice(cfg: Config, d: Delivery, lag: nat) returns (ops: seq<Op>)
    requires cfg.Valid() && cfg.replayEnabled && cfg.hasVerifier && cfg.window < cfg.maxAge + lag
    ensures TimelyRun(cfg, Start(0), ops) && Plausible(Run(cfg, Start(0), ops).history, lag)
    ensures !NoneTwice(Run(cfg, Start(0), ops).history)
  {
    var verified, checked := if lag <= cfg.window then cfg.window + 1 - lag else 0, cfg.window + 1;
    var one := Instant(d, 0, 0, Ok(map[]));
    var two := Request(d, true, map[], map[], true, 0, verified, checked, checked, checked, Ok(map[]));
    ops := [Ingest(one), Ingest(two)];
    BothPersisted(cfg, one, two);
    var h := Run(cfg, Start(0), ops).history;
    assert h[0].delivery == h[1].delivery && h[0].signedAt == h[1].signedAt;
  }

  lemma FirstPersisted(cfg: Config, r: Request)
    requires Admission(cfg, r).None?
    ensures Apply(cfg, Start(0), Ingest(r)) == Ledger(r.finishedAt, [Stored(cfg, 1, r)], 2, [r])
  {
    assert Protect(EMPTY, r.delivery, r.checkedAt, cfg.window) == Clear;
    assert EMPTY + [Stored(cfg, 1, r)] == [Stored(cfg, 1, r)];
  }

  /** Two requests, the second one later than the window, are both persisted, whatever they deliver. */
  lemma BothPersisted(cfg: Config, one: Request, two: Request)
    requires Admission(cfg, one).None? && Admission(cfg, two).None? && two.checkedAt - one.receivedAt > cfg.window
    requires Timely(Start(0), Ingest(one)) && one.finishedAt <= two.verifiedAt <= two.checkedAt <= two.receivedAt <= two.finishedAt
    ensures TimelyRun(cfg, Start(0), [Ingest(one), Ingest(two)])
    ensures Run(cfg, Start(0), [Ingest(one), Ingest(two)]).history == [one, two]
  {
    FirstPersisted(cfg, one);
    RunTwo(cfg, Start(0), Ingest(one), Ingest(two));
    ClearIff([Stored(cfg, 1, one)], two.delivery, two.checkedAt, cfg.window);
    assert Persists(cfg, [Stored(cfg, 1, one)], two);
  }

  lemma RunTwo(cfg: Config, s: Ledger, one: Op, two: Op)
    ensures Run(cfg, s, [one, two]) == Apply(cfg, Apply(cfg, s, one), two)
    ensures TimelyRun(cfg, s, [one, two]) <==> Timely(s, one) && Timely(Apply(cfg, s, one), two)
  {
    var a, b := [one], [one, two];
    assert a[..0] == [] && b[..1] == a;
    assert Run(cfg, s, []) == s && TimelyRun(cfg, s, []);
    assert Run(cfg, s, a) == Apply(cfg, s, one) && TimelyRun(cfg, s, a) == Timely(s, one);
  }

  /** The same signed delivery is persisted at most once in every plausible run exactly when the window covers the
      signature age and the lag, and the archive period the signature age. */
  lemma PersistedOnceIff(cfg: Config, lag: nat)
    requires cfg.Valid() && cfg.replayEnabled && cfg.hasVerifier
    ensures cfg.window >= cfg.maxAge + lag && cfg.Archive() >= cfg.maxAge <==>
      forall start, ops :: TimelyRun(cfg, Start(start), ops) && Plausible(Run(cfg, Start(start), ops).history, lag) ==>
        NoneTwice(Run(cfg, Start(start), ops).history)
  {
    if cfg.window >= cfg.maxAge + lag && cfg.Archive() >= cfg.maxAge {
      forall start, ops | TimelyRun(cfg, Start(start), ops) && Plausible(Run(cfg, Start(start), ops).history, lag)
        ensures NoneTwice(Run(cfg, Start(start), ops).history)
      {
        SignedDeliveryPersistedOnce(cfg, start, ops, lag);
      }
    } else {
      var d := Delivery("github", "push", "push", Some("1"), None, "", "");
      var ops: seq<Op>;
      if cfg.window < cfg.maxAge + lag {
        ops := SlowCheckPersistsTwice(cfg, d, lag);
      } else {
        ops := ForgottenIsPersistedAgain(cfg, d, 0);
        var h := Run(cfg, Start(0), ops).history;
        assert h[0].delivery == h[1].delivery && h[0].signedAt == h[1].signedAt;
      }
      assert TimelyRun(cfg, Start(0), ops) && Plausible(Run(cfg, Start(0), ops).history, lag);
    }
  }
}
