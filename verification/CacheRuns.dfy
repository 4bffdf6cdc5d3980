/** When the cache decorator cannot be told from the undecorated handlers, over every run of calls and expiries. */
module CacheRuns {
  import opened Common
  import opened Cache

  /** Redis may forget keys at any time, whatever expiry they were given. */
  datatype Event = Called(call: Call) | Expired(keys: set<string>)

  function Apply<D, R, J>(app: App<D, R, J>, s: State<D>, e: Event): State<D> {
    match e
    case Called(call) => if call.route < |app.routes| then Serve(app, s, call).0 else s
    case Expired(keys) => s.(store := s.store - keys)
  }

  function Run<D, R, J>(app: App<D, R, J>, db: D, events: seq<Event>): State<D> {
    if events == [] then State(db, map[]) else Apply(app, Run(app, db, events[..|events| - 1]), Last(events))
  }

  /** The same run without a cache: calls for which no key can be formed still stop before the handler. */
  function DirectRun<D, R, J>(app: App<D, R, J>, db: D, events: seq<Event>): D {
    if events == [] then db
    else
      var before := DirectRun(app, db, events[..|events| - 1]);
      match Last(events)
      case Called(call) => if IsWrite(app, call) then AfterWrite(app, before, call) else before
      case Expired(_) => before
  }

  predicate IsRead<D, R, J>(app: App<D, R, J>, c: Call) {
    && c.route < |app.routes|
    && app.routes[c.route].handler.Read?
    && app.routes[c.route].extra.None?
    && app.routes[c.route].patterns.None?
    && KeyOf(app.routes[c.route], c.kwargs).Ok?
  }

  predicate IsWrite<D, R, J>(app: App<D, R, J>, c: Call) {
    c.route < |app.routes| && app.routes[c.route].handler.Write? && KeyOf(app.routes[c.route], c.kwargs).Ok?
  }

  function KeyFor<D, R, J>(app: App<D, R, J>, c: Call): string
    requires IsRead(app, c)
  {
    KeyOf(app.routes[c.route], c.kwargs).value
  }

  function AfterWrite<D, R, J>(app: App<D, R, J>, db: D, w: Call): D
    requires IsWrite(app, w)
  {
    app.routes[w.route].handler.write(db, w.kwargs).0
  }

  /** Whether a write deletes a key; it deletes none when its handler raises. */
  predicate Deletes<D, R, J>(app: App<D, R, J>, db: D, w: Call, key: string)
    requires IsWrite(app, w)
  {
    var route := app.routes[w.route];
    route.handler.write(db, w.kwargs).1.Some? && Invalidates(app, route, w.kwargs, key)
  }

  /** What the undecorated handler would answer, in JSON form. */
  function Direct<D, R, J>(app: App<D, R, J>, db: D, c: Call): Response<R, J>
    requires IsRead(app, c)
  {
    match Rendered(app, app.routes[c.route].handler.read(db, c.kwargs))
    case Err(e) => Failed(e)
    case Ok(text) => Json(app.loads(text))
  }

  /** The handler's result as text, read back; or why there is none. */
  lemma DirectIs<D, R, J>(app: App<D, R, J>, db: D, c: Call)
    requires IsRead(app, c)
    ensures var result := app.routes[c.route].handler.read(db, c.kwargs);
      if result.None? then Direct(app, db, c) == Failed(Raised)
      else if app.dumps(result.value).None? then Direct(app, db, c) == Failed(NotSerializable)
      else Direct(app, db, c) == Json(app.loads(app.dumps(result.value).value))
  {
  }

  /** As of every JSON text. */
  ghost predicate TextIsNeverEmpty<D, R(!new), J>(app: App<D, R, J>) {
    forall r: R :: app.dumps(r) != Some("")
  }

  /** Reads that share a key answer alike, at least where one of them has an answer to store. */
  ghost predicate KeysTellReadsApart<D(!new), R(!new), J(!new)>(app: App<D, R, J>) {
    forall db: D, c, d :: IsRead(app, c) && IsRead(app, d) && KeyFor(app, c) == KeyFor(app, d) && Direct(app, db, c).Json? ==>
                            Direct(app, db, d) == Direct(app, db, c)
  }

  /** A write deletes the key of every read whose answer it changes. */
  ghost predicate WritesAreCovered<D(!new), R(!new), J(!new)>(app: App<D, R, J>) {
    forall db: D, w, c :: IsWrite(app, w) && IsRead(app, c) && Direct(app, db, c).Json? && !Deletes(app, db, w, KeyFor(app, c)) ==>
                            Direct(app, AfterWrite(app, db, w), c) == Direct(app, db, c)
  }

  ghost predicate Fresh<D, R, J>(app: App<D, R, J>, s: State<D>) {
    forall c :: IsRead(app, c) && KeyFor(app, c) in s.store ==>
                  s.store[KeyFor(app, c)] != "" && Direct(app, s.db, c) == Json(app.loads(s.store[KeyFor(app, c)]))
  }

  ghost predicate Transparent<D(!new), R(!new), J(!new)>(app: App<D, R, J>) {
    forall db: D, events, c :: IsRead(app, c) ==>
                                 Serve(app, Run(app, db, events), c).1 == Direct(app, Run(app, db, events).db, c)
  }

  lemma ApplyKeepsFresh<D(!new), R(!new), J(!new)>(app: App<D, R, J>, s: State<D>, e: Event)
    requires TextIsNeverEmpty(app) && KeysTellReadsApart(app) && WritesAreCovered(app) && Fresh(app, s)
    ensures Fresh(app, Apply(app, s, e))
  {
    if e.Called? && e.call.route < |app.routes| {
      var after := Apply(app, s, e);
      forall c | IsRead(app, c) && KeyFor(app, c) in after.store
        ensures after.store[KeyFor(app, c)] != ""
        ensures Direct(app, after.db, c) == Json(app.loads(after.store[KeyFor(app, c)]))
      {
        if IsWrite(app, e.call) {
          assert KeyFor(app, c) in s.store;
          assert !Deletes(app, s.db, e.call, KeyFor(app, c));
        } else if IsRead(app, e.call) && KeyFor(app, c) == KeyFor(app, e.call) && KeyFor(app, c) !in s.store {
          assert Direct(app, s.db, e.call).Json?;
        }
      }
    }
  }

  lemma {:induction false} RunIsFresh<D(!new), R(!new), J(!new)>(app: App<D, R, J>, db: D, events: seq<Event>)
    requires TextIsNeverEmpty(app) && KeysTellReadsApart(app) && WritesAreCovered(app)
    ensures Fresh(app, Run(app, db, events))
  {
    if events != [] {
      var before := events[..|events| - 1];
      RunIsFresh(app, db, before);
      ApplyKeepsFresh(app, Run(app, db, before), Last(events));
    }
  }

  /** Every read, hit or miss, after any run from any database, answers as the undecorated handler would, exactly when keys
      tell reads apart and writes are covered. */
  lemma TransparentIff<D(!new), R(!new), J(!new)>(app: App<D, R, J>)
    requires TextIsNeverEmpty(app)
    ensures Transparent(app) <==> KeysTellReadsApart(app) && WritesAreCovered(app)
  {
    if KeysTellReadsApart(app) && WritesAreCovered(app) {
      forall db: D, events, c | IsRead(app, c)
        ensures Serve(app, Run(app, db, events), c).1 == Direct(app, Run(app, db, events).db, c)
      {
        RunIsFresh(app, db, events);
      }
    }
    if Transparent(app) {
      TransparentKeysTellApart(app);
      TransparentIsCovered(app);
    }
  }

  lemma AfterOneRead<D(!new), R(!new), J(!new)>(app: App<D, R, J>, db: D, c: Call)
    requires TextIsNeverEmpty(app) && IsRead(app, c) && Direct(app, db, c).Json?
    ensures var s := Run(app, db, [Called(c)]);
      && s.db == db
      && s.store.Keys == {KeyFor(app, c)}
      && s.store[KeyFor(app, c)] != ""
      && Direct(app, db, c) == Json(app.loads(s.store[KeyFor(app, c)]))
  {
    assert [Called(c)][..0] == [];
  }

  lemma TransparentKeysTellApart<D(!new), R(!new), J(!new)>(app: App<D, R, J>)
    requires TextIsNeverEmpty(app) && Transparent(app)
    ensures KeysTellReadsApart(app)
  {
    forall db: D, c, d | IsRead(app, c) && IsRead(app, d) && KeyFor(app, c) == KeyFor(app, d) && Direct(app, db, c).Json?
      ensures Direct(app, db, d) == Direct(app, db, c)
    {
      AfterOneRead(app, db, c);
      var s := Run(app, db, [Called(c)]);
      assert Serve(app, s, d).1 == Direct(app, s.db, d);
    }
  }

  /** An uncovered write shows: read, write, and read again. */
  lemma TransparentIsCovered<D(!new), R(!new), J(!new)>(app: App<D, R, J>)
    requires TextIsNeverEmpty(app) && Transparent(app)
    ensures WritesAreCovered(app)
  {
    forall db: D, w, c | IsWrite(app, w) && IsRead(app, c) && Direct(app, db, c).Json? && !Deletes(app, db, w, KeyFor(app, c))
      ensures Direct(app, AfterWrite(app, db, w), c) == Direct(app, db, c)
    {
      AfterOneRead(app, db, c);
      var t := Run(app, db, [Called(c), Called(w)]);
      AfterOneWrite(app, db, c, w);
      assert Serve(app, t, c).1 == Direct(app, t.db, c);
    }
  }

  lemma AfterOneWrite<D(!new), R(!new), J(!new)>(app: App<D, R, J>, db: D, c: Call, w: Call)
    requires IsWrite(app, w) && IsRead(app, c)
    requires var s := Run(app, db, [Called(c)]); s.db == db && KeyFor(app, c) in s.store
    requires !Deletes(app, db, w, KeyFor(app, c))
    ensures var s, t := Run(app, db, [Called(c)]), Run(app, db, [Called(c), Called(w)]);
      t.db == AfterWrite(app, db, w) && KeyFor(app, c) in t.store && t.store[KeyFor(app, c)] == s.store[KeyFor(app, c)]
  {
    assert [Called(c), Called(w)][..1] == [Called(c)];
  }

  // ---- Keys apart ----

  /** Reads of one route about other ids than this. */
  ghost predicate ReadsOthers<D, R, J>(app: App<D, R, J>, route: nat, id: string, events: seq<Event>)
    requires route < |app.routes|
  {
    forall e :: e in events ==>
      e.Called? && e.call.route == route
      && exists other :: other != id && IsAbout(app.routes[route], e.call.kwargs, other)
  }

  predicate ConstantPrefix(t: Template) {
    forall i :: 0 <= i < |t| ==> t[i].Text?
  }

  lemma {:induction false} ConstantPrefixFormats(t: Template, one: seq<Argument>, two: seq<Argument>)
    requires ConstantPrefix(t)
    ensures Formatted(t, one).Some? && Formatted(t, one) == Formatted(t, two)
  {
    if t != [] {
      ConstantPrefixFormats(t[1..], one, two);
    }
  }

  lemma {:induction false} OthersLeaveKeyFree<D, R, J>(app: App<D, R, J>, db: D, events: seq<Event>, c: Call, id: string)
    requires IsRead(app, c) && ConstantPrefix(app.routes[c.route].prefix)
    requires IsAbout(app.routes[c.route], c.kwargs, id) && ReadsOthers(app, c.route, id, events)
    ensures Run(app, db, events).db == db && KeyFor(app, c) !in Run(app, db, events).store
  {
    if events != [] {
      var before, e := events[..|events| - 1], Last(events);
      OthersLeaveKeyFree(app, db, before, c, id);
      assert e in events;
      var route := app.routes[c.route];
      var other :| other != id && IsAbout(route, e.call.kwargs, other);
      ConstantPrefixFormats(route.prefix, c.kwargs, e.call.kwargs);
      KeysEqualIff(route, c.kwargs, e.call.kwargs, id, other);
    }
  }

  /** On a route with a constant prefix, a read of one id after any reads of others is answered by its own handler. */
  lemma OtherIdsDoNotShow<D, R, J>(app: App<D, R, J>, db: D, events: seq<Event>, c: Call, id: string)
    requires IsRead(app, c) && ConstantPrefix(app.routes[c.route].prefix)
    requires IsAbout(app.routes[c.route], c.kwargs, id) && ReadsOthers(app, c.route, id, events)
    ensures Serve(app, Run(app, db, events), c).1 == Direct(app, db, c)
  {
    OthersLeaveKeyFree(app, db, events, c, id);
  }

  /** A second read of the same call, with nothing in between, does not ask the handler: whatever has become of the
      database since, it repeats the first answer. */
  lemma HitRepeats<D, R(!new), J>(app: App<D, R, J>, s: State<D>, c: Call, later: D)
    requires TextIsNeverEmpty(app) && IsRead(app, c) && Serve(app, s, c).1.Json?
    ensures Serve(app, Serve(app, s, c).0.(db := later), c).1 == Serve(app, s, c).1
  {
  }

  /** A read that is configured to invalidate is refused, and nothing happens. */
  lemma InvalidatingReadIsRefused<D, R, J>(app: App<D, R, J>, s: State<D>, c: Call)
    requires c.route < |app.routes| && KeyOf(app.routes[c.route], c.kwargs).Ok?
    requires app.routes[c.route].handler.Read? && (app.routes[c.route].extra.Some? || app.routes[c.route].patterns.Some?)
    ensures Serve(app, s, c) == (s, Failed(InvalidRequest))
  {
  }

  /** A write answers what its handler returns, unless some extra key or pattern cannot be formatted; by then the database
      is written all the same. One whose handler raises deletes no key. */
  lemma WriteAnswers<D, R, J>(app: App<D, R, J>, s: State<D>, w: Call)
    requires IsWrite(app, w)
    ensures var route := app.routes[w.route]; var (after, result) := route.handler.write(s.db, w.kwargs);
      var (t, response) := Serve(app, s, w);
      && t.db == after
      && (result.None? ==> response == Failed(Raised) && t.store == s.store)
      && (result.Some? ==> (response == Raw(result.value) <==> Formattable(route, w.kwargs)))
      && (forall k :: k in t.store <==> k in s.store && !Deletes(app, s.db, w, k))
  {
    FormattableIff(app.routes[w.route], w.kwargs);
  }

  /** Whatever is cached, the database goes through the same states. */
  lemma {:induction false} DatabaseIgnoresCache<D, R, J>(app: App<D, R, J>, db: D, events: seq<Event>)
    ensures Run(app, db, events).db == DirectRun(app, db, events)
  {
    if events != [] {
      DatabaseIgnoresCache(app, db, events[..|events| - 1]);
    }
  }
}
