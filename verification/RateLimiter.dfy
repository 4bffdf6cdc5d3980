/** The fixed-window rate limiter over a shared Redis counter. */
module RateLimiter {
  import opened Common

  /** Subject, sanitised path and start of the window, in seconds. */
  datatype Key = Key(subject: string, path: string, windowStart: int)

  datatype Counter = Counter(count: nat, expiresAt: int)

  type Counters = map<Key, Counter>

  datatype Call = Call(subject: string, path: string, now: nat)

  function Trim(s: string): string {
    if s != [] && s[0] == '/' then Trim(s[1..])
    else if s != [] && Last(s) == '/' then Trim(s[..|s| - 1])
    else s
  }

  function SanitizePath(path: string): string {
    var s := Trim(path);
    seq(|s|, i requires 0 <= i < |s| => if s[i] == '/' then '_' else s[i])
  }

  /** The remainder as Python has it, with the sign of the divisor. */
  function Remainder(a: int, b: int): int
    requires b != 0
  {
    if b > 0 then a % b else -((-a) % -b)
  }

  function WindowStart(now: nat, period: int): int
    requires period != 0
  {
    var timestamp := now / SECOND;
    timestamp - Remainder(timestamp, period)
  }

  function KeyOf(c: Call, period: int): Key
    requires period != 0
  {
    Key(c.subject, SanitizePath(c.path), WindowStart(c.now, period))
  }

  // ---- Which calls share a counter ----

  /** The k-th window of the clock, counted in periods. */
  predicate InWindow(now: nat, period: nat, k: nat) {
    k * period <= now / SECOND < k * period + period
  }

  lemma WindowIs(now: nat, period: nat) returns (k: nat)
    requires period >= 1
    ensures InWindow(now, period, k) && WindowStart(now, period) == k * period
  {
    k := now / SECOND / period;
    assert now / SECOND == period * k + now / SECOND % period;
  }

  /** Two calls share a counter exactly when they are of one subject, of one path but for slashes, and in one window. */
  lemma SameKeyIff(c: Call, d: Call, period: nat)
    requires period >= 1
    ensures KeyOf(c, period) == KeyOf(d, period) <==>
      c.subject == d.subject && SanitizePath(c.path) == SanitizePath(d.path)
      && exists k :: InWindow(c.now, period, k) && InWindow(d.now, period, k)
  {
    var k := WindowIs(c.now, period);
    var l := WindowIs(d.now, period);
    if k == l {
      assert InWindow(d.now, period, k);
    } else if WindowStart(c.now, period) == WindowStart(d.now, period) {
      if k < l { MulOrder(period, k, l); } else { MulOrder(period, l, k); }
    }
    if m: nat :| InWindow(c.now, period, m) && InWindow(d.now, period, m) {
      Quotient(c.now / SECOND, period, m);
      Quotient(d.now / SECOND, period, m);
    }
  }

  predicate AllSlashes(s: string) {
    forall c :: c in s ==> c == '/'
  }

  lemma {:induction false} TrimIs(s: string) returns (before: string, after: string)
    ensures s == before + Trim(s) + after && AllSlashes(before) && AllSlashes(after)
    ensures Trim(s) != "" ==> Trim(s)[0] != '/' && Last(Trim(s)) != '/'
  {
    before, after := "", "";
    if s != [] && s[0] == '/' {
      before, after := TrimIs(s[1..]);
      before := [s[0]] + before;
    } else if s != [] && Last(s) == '/' {
      before, after := TrimIs(s[..|s| - 1]);
      after := after + [Last(s)];
    }
  }

  /** The path without slashes at its ends, and with underscores for those inside. */
  lemma SanitizePathIs(path: string) returns (before: string, middle: string, after: string)
    ensures path == before + middle + after && AllSlashes(before) && AllSlashes(after)
    ensures middle != "" ==> middle[0] != '/' && Last(middle) != '/'
    ensures |SanitizePath(path)| == |middle|
    ensures forall i :: 0 <= i < |middle| ==> SanitizePath(path)[i] == if middle[i] == '/' then '_' else middle[i]
  {
    before, after := TrimIs(path);
    middle := Trim(path);
  }

  /** Redis drops a key when its time to live is over. */
  function Live(counters: Counters, now: int): Counters {
    map k | k in counters && now < counters[k].expiresAt :: counters[k]
  }

  function Count(counters: Counters, k: Key): nat {
    if k in counters then counters[k].count else 0
  }

  /** What INCR answers: which call of its window this is. */
  function Number(counters: Counters, c: Call, period: int): nat
    requires period != 0
  {
    Count(Live(counters, c.now), KeyOf(c, period)) + 1
  }

  /** EXPIRE with a time that is not positive deletes the key. */
  function Expiring(counters: Counters, k: Key, now: int, seconds: int): Counters
    requires k in counters
  {
    if seconds <= 0 then counters - {k} else counters[k := counters[k].(expiresAt := now + seconds * SECOND)]
  }

  /** The counters after one call: INCR, and EXPIRE when the counter is new. */
  function Counted(counters: Counters, c: Call, period: int): Counters
    requires period != 0
  {
    var k := KeyOf(c, period);
    var live := Live(counters, c.now);
    var n := Number(counters, c, period);
    if n == 1 then Expiring(live[k := Counter(1, c.now)], k, c.now, period)
    else live[k := live[k].(count := n)]
  }

  /** With a positive period, the call's counter is one higher and lives a period from its first call; every other counter
      that has not run out is as before. */
  lemma CountedIs(counters: Counters, c: Call, period: nat, k: Key)
    requires period >= 1 && forall l :: l in counters ==> counters[l].count >= 1
    ensures var own := KeyOf(c, period); var after := Counted(counters, c, period);
      var alive := k in counters && c.now < counters[k].expiresAt;
      if k != own then (k in after <==> alive) && (alive ==> after[k] == counters[k])
      else k in after && after[k] == if alive then Counter(counters[k].count + 1, counters[k].expiresAt)
                                     else Counter(1, c.now + period * SECOND)
  {
  }

  class Limiter {
    var counters: Counters

    constructor ()
      ensures counters == map[]
    {
      counters := map[];
    }

    /** A new counter has no time to live yet; EXPIRE comes next. */
    method Incr(k: Key, now: int) returns (count: nat)
      modifies this
      ensures var live := Live(old(counters), now);
        count == Count(live, k) + 1
        && counters == live[k := Counter(count, if k in live then live[k].expiresAt else now)]
    {
      var live := Live(counters, now);
      count := Count(live, k) + 1;
      counters := live[k := Counter(count, if k in live then live[k].expiresAt else now)];
    }

    method Expire(k: Key, now: int, seconds: int)
      requires k in counters
      modifies this
      ensures counters == Expiring(old(counters), k, now, seconds)
    {
      if seconds <= 0 {
        counters := counters - {k};
      } else {
        counters := counters[k := counters[k].(expiresAt := now + seconds * SECOND)];
      }
    }

    /** A period of zero divides by zero, before Redis is touched. */
    method IsRateLimited(c: Call, limit: int, period: int) returns (r: Result<bool, string>)
      modifies this
      ensures period == 0 ==> r.Err? && counters == old(counters)
      ensures period != 0 ==>
        counters == Counted(old(counters), c, period) && r == Ok(Number(old(counters), c, period) > limit)
    {
      if period == 0 {
        return Err("modulo by zero");
      }
      var k := KeyOf(c, period);
      var count := Incr(k, c.now);
      if count == 1 {
        Expire(k, c.now, period);
      }
      r := Ok(count > limit);
    }
  }

  // ---- Runs ----

  datatype Entry = Entry(call: Call, admitted: bool)

  datatype State = State(counters: Counters, log: seq<Entry>)

  function Apply(s: State, c: Call, limit: int, period: int): State
    requires period != 0
  {
    State(Counted(s.counters, c, period), s.log + [Entry(c, Number(s.counters, c, period) <= limit)])
  }

  function Run(calls: seq<Call>, limit: int, period: int): State
    requires period != 0
  {
    if calls == [] then State(map[], [])
    else Apply(Run(calls[..|calls| - 1], limit, period), Last(calls), limit, period)
  }

  /** A negative period keeps no counter, so that every call is a first one: nothing is ever limited, unless everything. */
  lemma {:induction false} NegativePeriodNeverCounts(calls: seq<Call>, limit: int, period: int)
    requires period < 0
    ensures var s := Run(calls, limit, period);
      s.counters == map[] && |s.log| == |calls| && forall i :: 0 <= i < |s.log| ==> (s.log[i].admitted <==> 1 <= limit)
  {
    if calls != [] {
      NegativePeriodNeverCounts(calls[..|calls| - 1], limit, period);
    }
  }

  predicate Chronological(calls: seq<Call>) {
    forall i :: 0 <= i < |calls| - 1 ==> calls[i].now <= calls[i + 1].now
  }

  /** How many of the logged calls fell on the key. */
  function CallsOn(log: seq<Entry>, k: Key, period: nat): nat
    requires period >= 1
  {
    if log == [] then 0
    else CallsOn(log[..|log| - 1], k, period) + if KeyOf(Last(log).call, period) == k then 1 else 0
  }

  function AdmittedOn(log: seq<Entry>, k: Key, period: nat): nat
    requires period >= 1
  {
    if log == [] then 0
    else AdmittedOn(log[..|log| - 1], k, period)
         + if Last(log).admitted && KeyOf(Last(log).call, period) == k then 1 else 0
  }

  /** Admitted calls of one subject and path in the interval of one period that begins at start. */
  function AdmittedDuring(log: seq<Entry>, subject: string, path: string, start: nat, period: nat): nat {
    if log == [] then 0
    else
      var e := Last(log);
      AdmittedDuring(log[..|log| - 1], subject, path, start, period)
      + if e.admitted && e.call.subject == subject && SanitizePath(e.call.path) == path
           && start <= e.call.now < start + period * SECOND then 1 else 0
  }

  function WindowEnd(k: Key, period: nat): int {
    (k.windowStart + period) * SECOND
  }

  lemma {:induction false} InsideItsWindow(now: nat, period: nat)
    requires period >= 1
    ensures WindowStart(now, period) * SECOND <= now < (WindowStart(now, period) + period) * SECOND
  {
    var timestamp := now / SECOND;
    assert 0 <= timestamp % period < period;
  }

  /** Until its window closes, a counter that was used is there, counts every call, and outlives the window. */
  ghost predicate CountsAll(s: State, now: int, period: nat)
    requires period >= 1
  {
    forall k :: now < WindowEnd(k, period) ==>
      Count(s.counters, k) == CallsOn(s.log, k, period)
      && (k in s.counters ==> s.counters[k].count >= 1 && s.counters[k].expiresAt >= WindowEnd(k, period))
  }

  lemma ApplyKeepsCounts(s: State, c: Call, limit: int, period: nat, now: int)
    requires period >= 1 && CountsAll(s, now, period) && now <= c.now
    ensures CountsAll(Apply(s, c, limit, period), c.now, period)
    ensures Number(s.counters, c, period) == CallsOn(s.log, KeyOf(c, period), period) + 1
  {
    var key := KeyOf(c, period);
    var t := Apply(s, c, limit, period);
    InsideItsWindow(c.now, period);
    assert t.log[..|t.log| - 1] == s.log;
    assert now < WindowEnd(key, period);
    forall k | c.now < WindowEnd(k, period)
      ensures Count(t.counters, k) == CallsOn(t.log, k, period)
      ensures k in t.counters ==> t.counters[k].count >= 1 && t.counters[k].expiresAt >= WindowEnd(k, period)
    {
      assert Count(s.counters, k) == CallsOn(s.log, k, period);
      assert Count(Live(s.counters, c.now), k) == Count(s.counters, k);
    }
  }

  lemma {:induction false} RunCountsAll(calls: seq<Call>, limit: int, period: nat)
    requires period >= 1 && Chronological(calls)
    ensures CountsAll(Run(calls, limit, period), if calls == [] then 0 else Last(calls).now, period)
  {
    if calls != [] {
      var before := calls[..|calls| - 1];
      RunCountsAll(before, limit, period);
      assert before != [] ==> Last(before).now <= calls[|before|].now;
      ApplyKeepsCounts(Run(before, limit, period), Last(calls), limit, period, if before == [] then 0 else Last(before).now);
    }
  }

  lemma ChronologicalPrefix(calls: seq<Call>, c: Call)
    ensures Chronological(calls + [c]) <==> Chronological(calls) && (calls != [] ==> Last(calls).now <= c.now)
  {
    var all := calls + [c];
    if Chronological(all) {
      forall i | 0 <= i < |calls| - 1 ensures calls[i].now <= calls[i + 1].now {
        assert all[i].now <= all[i + 1].now;
      }
      assert calls != [] ==> all[|calls| - 1].now <= all[|calls| - 1 + 1].now;
    }
  }

  /** One more call adds one entry, and counts where it belongs. */
  lemma RunExtends(calls: seq<Call>, c: Call, limit: int, period: nat)
    requires period >= 1
    ensures var before, after := Run(calls, limit, period), Run(calls + [c], limit, period);
      after == Apply(before, c, limit, period)
      && forall k :: CallsOn(after.log, k, period) == CallsOn(before.log, k, period) + if KeyOf(c, period) == k then 1 else 0
  {
    assert (calls + [c])[..|calls|] == calls;
    var before, after := Run(calls, limit, period), Run(calls + [c], limit, period);
    assert after.log[..|after.log| - 1] == before.log;
  }

  /** On a clock that does not go back, the n-th call of a subject and path in a window is admitted exactly when n is at
      most the limit: the counter never runs out before its window. */
  lemma NthCallAdmittedIff(calls: seq<Call>, c: Call, limit: int, period: nat)
    requires period >= 1 && Chronological(calls + [c])
    ensures var log := Run(calls + [c], limit, period).log;
      |log| > 0 && (Last(log).admitted <==> CallsOn(log, KeyOf(c, period), period) <= limit)
  {
    ChronologicalPrefix(calls, c);
    RunCountsAll(calls, limit, period);
    RunExtends(calls, c, limit, period);
    ApplyKeepsCounts(Run(calls, limit, period), c, limit, period, if calls == [] then 0 else Last(calls).now);
  }

  lemma AdmittedExtends(log: seq<Entry>, e: Entry, k: Key, period: nat, subject: string, path: string, start: nat)
    requires period >= 1
    ensures AdmittedOn(log + [e], k, period)
         == AdmittedOn(log, k, period) + if e.admitted && KeyOf(e.call, period) == k then 1 else 0
    ensures AdmittedDuring(log + [e], subject, path, start, period)
         == AdmittedDuring(log, subject, path, start, period)
            + if e.admitted && e.call.subject == subject && SanitizePath(e.call.path) == path
                 && start <= e.call.now < start + period * SECOND then 1 else 0
  {
    assert (log + [e])[..|log|] == log;
  }

  ghost predicate AdmitsUpTo(log: seq<Entry>, limit: nat, period: nat, k: Key)
    requires period >= 1
  {
    AdmittedOn(log, k, period) == if CallsOn(log, k, period) <= limit then CallsOn(log, k, period) else limit
  }

  lemma AdmitsUpToNext(log: seq<Entry>, e: Entry, limit: nat, period: nat, k: Key)
    requires period >= 1 && AdmitsUpTo(log, limit, period, k)
    requires e.admitted <==> CallsOn(log + [e], KeyOf(e.call, period), period) <= limit
    ensures AdmitsUpTo(log + [e], limit, period, k)
  {
    assert (log + [e])[..|log|] == log;
  }

  /** Hence a window admits the smaller of its calls and the limit. */
  lemma {:induction false} WindowAdmits(calls: seq<Call>, limit: nat, period: nat, k: Key)
    requires period >= 1 && Chronological(calls)
    ensures AdmitsUpTo(Run(calls, limit, period).log, limit, period, k)
  {
    if calls != [] {
      var before, c := calls[..|calls| - 1], Last(calls);
      assert before + [c] == calls;
      ChronologicalPrefix(before, c);
      WindowAdmits(before, limit, period, k);
      NthCallAdmittedIff(before, c, limit, period);
      RunExtends(before, c, limit, period);
      var log := Run(before, limit, period).log;
      AdmitsUpToNext(log, Entry(c, Number(Run(before, limit, period).counters, c, period) <= limit), limit, period, k);
    }
  }

  /** An interval of one period meets two windows at most. */
  lemma TwoWindows(start: nat, now: nat, period: nat)
    requires period >= 1 && start <= now < start + period * SECOND
    ensures WindowStart(now, period) == WindowStart(start, period)
         || WindowStart(now, period) == WindowStart(start, period) + period
  {
    var s, t := start / SECOND, now / SECOND;
    assert s <= t <= s + period;
    DivisionStep(s, t, period);
  }

  lemma DivisionStep(s: nat, t: nat, period: nat)
    requires period >= 1 && s <= t <= s + period
    ensures t - t % period == s - s % period || t - t % period == s - s % period + period
  {
    var q, r := s / period, s % period;
    assert s == period * q + r;
    if t - period * q < period {
      Quotient(t, period, q);
    } else if t - period * q < 2 * period {
      Quotient(t, period, q + 1);
    } else {
      assert false;
    }
  }

  lemma {:induction false} MulOrder(p: nat, a: nat, b: nat)
    requires a < b
    ensures p * a + p <= p * b
  {
    if a + 1 < b {
      MulOrder(p, a, b - 1);
    }
  }

  lemma Quotient(t: nat, period: nat, q: nat)
    requires period >= 1 && period * q <= t < period * q + period
    ensures t - t % period == period * q
  {
    var d := t / period;
    assert t == period * d + t % period;
    if d < q {
      MulOrder(period, d, q);
    } else if q < d {
      MulOrder(period, q, d);
    }
  }

  lemma {:induction false} DuringIsWithinTwoWindows(log: seq<Entry>, subject: string, path: string, start: nat, period: nat)
    requires period >= 1
    ensures var w := WindowStart(start, period);
      AdmittedDuring(log, subject, path, start, period)
      <= AdmittedOn(log, Key(subject, path, w), period) + AdmittedOn(log, Key(subject, path, w + period), period)
  {
    if log != [] {
      DuringIsWithinTwoWindows(log[..|log| - 1], subject, path, start, period);
      var now := Last(log).call.now;
      if start <= now < start + period * SECOND {
        TwoWindows(start, now, period);
      }
    }
  }

  /** Any time interval of one period admits at most twice the limit for a subject and path. */
  lemma IntervalAdmitsTwiceTheLimit(calls: seq<Call>, limit: nat, period: nat, subject: string, path: string, start: nat)
    requires period >= 1 && Chronological(calls)
    ensures AdmittedDuring(Run(calls, limit, period).log, subject, path, start, period) <= 2 * limit
  {
    var log := Run(calls, limit, period).log;
    var w := WindowStart(start, period);
    DuringIsWithinTwoWindows(log, subject, path, start, period);
    WindowAdmits(calls, limit, period, Key(subject, path, w));
    WindowAdmits(calls, limit, period, Key(subject, path, w + period));
  }

  // ---- The bound is reached ----

  function Burst(c: Call, n: nat): seq<Call> {
    if n == 0 then [] else Burst(c, n - 1) + [c]
  }

  function Early(subject: string, path: string, period: nat): Call
    requires period >= 1
  {
    Call(subject, path, period * SECOND - 1)
  }

  function Late(subject: string, path: string, period: nat): Call {
    Call(subject, path, period * SECOND)
  }

  /** The guide calls this a sliding window. It is not: for every limit and period, twice the limit gets through within
      one microsecond, on either side of a window's edge. */
  lemma EdgeAdmitsTwice(limit: nat, period: nat, subject: string, path: string)
    requires period >= 1
    ensures var calls := Burst(Early(subject, path, period), limit) + Burst(Late(subject, path, period), limit);
      Chronological(calls)
      && AdmittedDuring(Run(calls, limit, period).log, subject, SanitizePath(path), period * SECOND - 1, period) == 2 * limit
  {
    LateBurst(limit, period, subject, path, limit);
  }

  lemma EdgeWindows(period: nat)
    requires period >= 1
    ensures WindowStart(period * SECOND - 1, period) == 0 && WindowStart(period * SECOND, period) == period
  {
    assert (period * SECOND) / SECOND == period && (period * SECOND - 1) / SECOND == period - 1;
    Quotient(period, period, 1);
    Quotient(period - 1, period, 0);
  }

  /** So far n calls, in order and none after the given time, are all admitted; some lie in the early window, the rest
      in the late one. */
  ghost predicate AllAdmitted(calls: seq<Call>, limit: nat, period: nat, subject: string, path: string, first: nat, second: nat)
    requires period >= 1
  {
    var log := Run(calls, limit, period).log;
    && Chronological(calls)
    && AdmittedDuring(log, subject, SanitizePath(path), period * SECOND - 1, period) == first + second
    && CallsOn(log, KeyOf(Early(subject, path, period), period), period) == first
    && CallsOn(log, KeyOf(Late(subject, path, period), period), period) == second
  }

  lemma AdmitsOneMore(calls: seq<Call>, late: bool, limit: nat, period: nat, subject: string, path: string, first: nat, second: nat)
    requires period >= 1 && AllAdmitted(calls, limit, period, subject, path, first, second)
    requires if late then second < limit else first < limit
    requires var c := if late then Late(subject, path, period) else Early(subject, path, period);
      calls != [] ==> Last(calls).now <= c.now
    ensures var c := if late then Late(subject, path, period) else Early(subject, path, period);
      AllAdmitted(calls + [c], limit, period, subject, path, if late then first else first + 1, if late then second + 1 else second)
  {
    var c := if late then Late(subject, path, period) else Early(subject, path, period);
    EdgeWindows(period);
    assert KeyOf(Early(subject, path, period), period) != KeyOf(Late(subject, path, period), period);
    BurstGrows(calls, c, limit, period, SanitizePath(path), period * SECOND - 1);
  }

  lemma NothingAdmitted(limit: nat, period: nat, subject: string, path: string)
    requires period >= 1
    ensures AllAdmitted([], limit, period, subject, path, 0, 0)
  {
  }

  lemma {:induction false} EarlyBurst(limit: nat, period: nat, subject: string, path: string, n: nat)
    requires period >= 1 && n <= limit
    ensures AllAdmitted(Burst(Early(subject, path, period), n), limit, period, subject, path, n, 0)
  {
    if n == 0 {
      NothingAdmitted(limit, period, subject, path);
    } else {
      var early := Early(subject, path, period);
      EarlyBurst(limit, period, subject, path, n - 1);
      var calls := Burst(early, n - 1);
      assert Burst(early, n) == calls + [early];
      AdmitsOneMore(calls, false, limit, period, subject, path, n - 1, 0);
    }
  }

  lemma {:induction false} LateBurst(limit: nat, period: nat, subject: string, path: string, n: nat)
    requires period >= 1 && n <= limit
    ensures AllAdmitted(Burst(Early(subject, path, period), limit) + Burst(Late(subject, path, period), n),
                        limit, period, subject, path, limit, n)
  {
    var early, late := Early(subject, path, period), Late(subject, path, period);
    if n == 0 {
      EarlyBurst(limit, period, subject, path, limit);
      assert Burst(early, limit) + [] == Burst(early, limit);
    } else {
      LateBurst(limit, period, subject, path, n - 1);
      var calls := Burst(early, limit) + Burst(late, n - 1);
      assert calls + [late] == Burst(early, limit) + Burst(late, n);
      AdmitsOneMore(calls, true, limit, period, subject, path, limit, n - 1);
    }
  }

  /** A call that is within its window's limit, and not earlier than the last, is admitted and counted. */
  lemma BurstGrows(fewer: seq<Call>, c: Call, limit: nat, period: nat, path: string, start: nat)
    requires period >= 1 && Chronological(fewer) && (fewer != [] ==> Last(fewer).now <= c.now)
    requires path == SanitizePath(c.path) && start <= c.now < start + period * SECOND
    requires CallsOn(Run(fewer, limit, period).log, KeyOf(c, period), period) < limit
    ensures var before, after := Run(fewer, limit, period).log, Run(fewer + [c], limit, period).log;
      && Chronological(fewer + [c])
      && AdmittedDuring(after, c.subject, path, start, period) == AdmittedDuring(before, c.subject, path, start, period) + 1
      && forall k :: CallsOn(after, k, period) == CallsOn(before, k, period) + if KeyOf(c, period) == k then 1 else 0
  {
    ChronologicalPrefix(fewer, c);
    NthCallAdmittedIff(fewer, c, limit, period);
    RunExtends(fewer, c, limit, period);
    var before, after := Run(fewer, limit, period).log, Run(fewer + [c], limit, period).log;
    AdmittedExtends(before, Last(after), KeyOf(c, period), period, c.subject, path, start);
  }
}
