/** The cache decorator: keys built from call arguments, reads answered from Redis, writes that invalidate. */
module Cache {
  import opened Common

  // ---- Keys ----

  datatype Kind = IntKind | StrKind | OtherKind(typeName: string)

  /** A keyword argument, with the text it is formatted as. */
  datatype Argument = Argument(name: string, kind: Kind, text: string)

  /** A single accepted type, or a tuple of several. */
  datatype IdType = One(kind: Kind) | Several(kinds: seq<Kind>)

  datatype Part = Text(text: string) | Field(name: string)

  type Template = seq<Part>

  datatype CacheError = MissingArgument | CannotInferId | NoFieldInTemplate | InvalidRequest | Raised | NotSerializable

  function Lookup(kwargs: seq<Argument>, name: string): Option<string> {
    if kwargs == [] then None
    else if kwargs[0].name == name then Some(kwargs[0].text)
    else Lookup(kwargs[1..], name)
  }

  predicate IsInstance(a: Argument, idType: IdType) {
    match idType
    case One(kind) => a.kind == kind
    case Several(kinds) => a.kind in kinds
  }

  /** Whether an argument can be the resource's id: an instance for which one of the branches assigns. */
  predicate CanBeId(a: Argument, idType: IdType) {
    IsInstance(a, idType) && ((idType == One(IntKind) && Contains(a.name, "id")) || idType == One(StrKind))
  }

  function InferredId(kwargs: seq<Argument>, idType: IdType): Result<string, CacheError> {
    if kwargs == [] then Err(CannotInferId)
    else if CanBeId(Last(kwargs), idType) then Ok(Last(kwargs).text)
    else InferredId(kwargs[..|kwargs| - 1], idType)
  }

  method InferResourceId(kwargs: seq<Argument>, idType: IdType) returns (r: Result<string, CacheError>)
    ensures r == InferredId(kwargs, idType)
  {
    r := Err(CannotInferId);
    for i := 0 to |kwargs|
      invariant r == InferredId(kwargs[..i], idType)
    {
      assert kwargs[..i + 1][..i] == kwargs[..i];
      var a := kwargs[i];
      if IsInstance(a, idType) {
        if idType == One(IntKind) && Contains(a.name, "id") {
          r := Ok(a.text);
        } else if idType == One(IntKind) && !Contains(a.name, "id") {
        } else if idType == One(StrKind) {
          r := Ok(a.text);
        }
      }
    }
    assert kwargs[..|kwargs|] == kwargs;
  }

  /** Of int, an argument with "id" somewhere in its name; of str, any. */
  ghost predicate Qualifies(a: Argument, idType: IdType) {
    || (idType == One(IntKind) && a.kind == IntKind && exists before, after :: a.name == before + "id" + after)
    || (idType == One(StrKind) && a.kind == StrKind)
  }

  ghost predicate IsIdAt(kwargs: seq<Argument>, idType: IdType, id: string, i: int) {
    0 <= i < |kwargs| && Qualifies(kwargs[i], idType) && id == kwargs[i].text
    && forall j :: i < j < |kwargs| ==> !Qualifies(kwargs[j], idType)
  }

  lemma QualifiesIff(a: Argument, idType: IdType)
    ensures CanBeId(a, idType) <==> Qualifies(a, idType)
  {
    ContainsIff(a.name, "id");
  }

  /** The id is that of the last argument that can be one; there is none exactly when no argument can. */
  lemma {:induction false} InferredIdIsLast(kwargs: seq<Argument>, idType: IdType)
    ensures var r := InferredId(kwargs, idType);
      if r.Ok? then exists i :: IsIdAt(kwargs, idType, r.value, i)
      else r == Err(CannotInferId) && forall i :: 0 <= i < |kwargs| ==> !Qualifies(kwargs[i], idType)
  {
    if kwargs != [] {
      var earlier := kwargs[..|kwargs| - 1];
      InferredIdIsLast(earlier, idType);
      QualifiesIff(kwargs[|kwargs| - 1], idType);
      if CanBeId(kwargs[|kwargs| - 1], idType) {
        assert IsIdAt(kwargs, idType, InferredId(kwargs, idType).value, |kwargs| - 1);
      } else if InferredId(earlier, idType).Ok? {
        var i :| IsIdAt(earlier, idType, InferredId(earlier, idType).value, i);
        assert IsIdAt(kwargs, idType, InferredId(kwargs, idType).value, i);
      }
    }
  }

  /** Some arguments make it possible to infer an id exactly when the one accepted type is int or str: a tuple of types,
      or any other type, never gives one. */
  lemma InferableIff(idType: IdType)
    ensures (exists kwargs :: InferredId(kwargs, idType).Ok?) <==> idType == One(IntKind) || idType == One(StrKind)
  {
    if idType == One(IntKind) || idType == One(StrKind) {
      var kwargs := [Argument("id", idType.kind, "7")];
      InferredIdIsLast(kwargs, idType);
      assert "id" == "" + "id" + "" && Qualifies(kwargs[0], idType);
      assert InferredId(kwargs, idType).Ok?;
    }
    if exists kwargs :: InferredId(kwargs, idType).Ok? {
      var kwargs :| InferredId(kwargs, idType).Ok?;
      InferredIdIsLast(kwargs, idType);
    }
  }

  function Formatted(t: Template, kwargs: seq<Argument>): Option<string> {
    if t == [] then Some("")
    else
      var head := match t[0] { case Text(text) => Some(text) case Field(name) => Lookup(kwargs, name) };
      var tail := Formatted(t[1..], kwargs);
      if head.Some? && tail.Some? then Some(head.value + tail.value) else None
  }

  function FirstField(t: Template): Option<string> {
    if t == [] then None
    else if t[0].Field? then Some(t[0].name)
    else FirstField(t[1..])
  }

  // ---- Routes ----

  /** What is decorated. A handler that raises gives no result; a write that raises may have changed the database. */
  datatype Handler<!D, R> = Read(read: (D, seq<Argument>) -> Option<R>) | Write(write: (D, seq<Argument>) -> (D, Option<R>))

  datatype Route<!D, R> = Route(
    prefix: Template,
    idName: Option<string>,
    idType: IdType,
    extra: Option<seq<(Template, Template)>>,
    patterns: Option<seq<Template>>,
    handler: Handler<D, R>
  )

  datatype Call = Call(route: nat, kwargs: seq<Argument>)

  /** Routes over one Redis, with how results become text, how text is read back, and which keys a pattern matches. */
  datatype App<!D, !R, J> = App(
    routes: seq<Route<D, R>>,
    dumps: R -> Option<string>,
    loads: string -> J,
    matches: (string, string) -> bool
  )

  datatype Response<R, J> = Json(json: J) | Raw(result: R) | Failed(error: CacheError)

  datatype State<D> = State(db: D, store: map<string, string>)

  function Listed<T>(config: Option<seq<T>>): seq<T> {
    if config.Some? then config.value else []
  }

  function ResourceId<D, R>(route: Route<D, R>, kwargs: seq<Argument>): Result<string, CacheError> {
    match route.idName
    case Some(name) => (
      match Lookup(kwargs, name)
      case Some(id) => Ok(id)
      case None => Err(MissingArgument))
    case None => InferredId(kwargs, route.idType)
  }

  function KeyOf<D, R>(route: Route<D, R>, kwargs: seq<Argument>): Result<string, CacheError> {
    match ResourceId(route, kwargs)
    case Err(e) => Err(e)
    case Ok(id) =>
      match Formatted(route.prefix, kwargs)
      case None => Err(MissingArgument)
      case Some(prefix) => Ok(prefix + ":" + id)
  }

  // ---- What a key says ----

  /** The first argument of that name has that text. */
  ghost predicate Says(kwargs: seq<Argument>, name: string, text: string) {
    exists i :: 0 <= i < |kwargs| && kwargs[i].name == name && kwargs[i].text == text
                && forall j :: 0 <= j < i ==> kwargs[j].name != name
  }

  lemma {:induction false} LookupIff(kwargs: seq<Argument>, name: string, text: string)
    ensures Lookup(kwargs, name) == Some(text) <==> Says(kwargs, name, text)
  {
    if kwargs != [] && kwargs[0].name != name {
      LookupIff(kwargs[1..], name, text);
      if Says(kwargs[1..], name, text) {
        var i :| 0 <= i < |kwargs[1..]| && kwargs[1..][i].name == name && kwargs[1..][i].text == text
                 && forall j :: 0 <= j < i ==> kwargs[1..][j].name != name;
        assert kwargs[i + 1].text == text;
        forall j | 0 <= j < i + 1 ensures kwargs[j].name != name {
          if j > 0 {
            assert kwargs[1..][j - 1].name != name;
          }
        }
      }
      if Says(kwargs, name, text) {
        var i :| 0 <= i < |kwargs| && kwargs[i].name == name && kwargs[i].text == text
                 && forall j :: 0 <= j < i ==> kwargs[j].name != name;
        assert kwargs[1..][i - 1].text == text;
      }
    }
  }

  function Joined(pieces: seq<string>): string {
    if pieces == [] then "" else pieces[0] + Joined(pieces[1..])
  }

  ghost predicate Fills(part: Part, kwargs: seq<Argument>, piece: string) {
    match part
    case Text(text) => piece == text
    case Field(name) => Says(kwargs, name, piece)
  }

  /** Texts as written, and in place of each field the argument of that name, in order. */
  ghost predicate Renders(t: Template, kwargs: seq<Argument>, result: string) {
    exists pieces :: IsRendering(t, kwargs, pieces) && result == Joined(pieces)
  }

  ghost predicate IsRendering(t: Template, kwargs: seq<Argument>, pieces: seq<string>) {
    |pieces| == |t| && forall i :: 0 <= i < |t| ==> Fills(t[i], kwargs, pieces[i])
  }

  lemma {:induction false} FormattedIff(t: Template, kwargs: seq<Argument>, result: string)
    ensures Formatted(t, kwargs) == Some(result) <==> Renders(t, kwargs, result)
  {
    if Formatted(t, kwargs) == Some(result) {
      var pieces := PiecesOf(t, kwargs);
    }
    if Renders(t, kwargs, result) {
      var pieces :| IsRendering(t, kwargs, pieces) && result == Joined(pieces);
      RenderingIsFormatted(t, kwargs, pieces);
    }
  }

  lemma {:induction false} PiecesOf(t: Template, kwargs: seq<Argument>) returns (pieces: seq<string>)
    requires Formatted(t, kwargs).Some?
    ensures IsRendering(t, kwargs, pieces) && Formatted(t, kwargs).value == Joined(pieces)
  {
    pieces := [];
    if t != [] {
      var rest := PiecesOf(t[1..], kwargs);
      var first := match t[0] { case Text(text) => text case Field(name) => Lookup(kwargs, name).value };
      if t[0].Field? {
        LookupIff(kwargs, t[0].name, first);
      }
      pieces := [first] + rest;
      assert pieces[1..] == rest;
      forall i | 0 <= i < |t| ensures Fills(t[i], kwargs, pieces[i]) {
        if i > 0 {
          assert t[1..][i - 1] == t[i] && rest[i - 1] == pieces[i];
        }
      }
    }
  }

  lemma {:induction false} RenderingIsFormatted(t: Template, kwargs: seq<Argument>, pieces: seq<string>)
    requires IsRendering(t, kwargs, pieces)
    ensures Formatted(t, kwargs) == Some(Joined(pieces))
  {
    if t != [] {
      forall i | 0 <= i < |t[1..]| ensures Fills(t[1..][i], kwargs, pieces[1..][i]) {
        assert Fills(t[i + 1], kwargs, pieces[i + 1]);
      }
      RenderingIsFormatted(t[1..], kwargs, pieces[1..]);
      assert Fills(t[0], kwargs, pieces[0]);
      if t[0].Field? {
        LookupIff(kwargs, t[0].name, pieces[0]);
      }
    }
  }

  /** The id a call is about: that of the argument the route names, or else of the last one that can be an id. */
  ghost predicate IsAbout<D, R>(route: Route<D, R>, kwargs: seq<Argument>, id: string) {
    match route.idName
    case Some(name) => Says(kwargs, name, id)
    case None => exists i :: IsIdAt(kwargs, route.idType, id, i)
  }

  lemma ResourceIdIff<D, R>(route: Route<D, R>, kwargs: seq<Argument>, id: string)
    ensures ResourceId(route, kwargs) == Ok(id) <==> IsAbout(route, kwargs, id)
  {
    match route.idName
    case Some(name) => LookupIff(kwargs, name, id);
    case None => InferredIdIsLast(kwargs, route.idType);
  }

  /** The key is the rendered prefix, a colon, and the id. */
  lemma KeyIff<D, R>(route: Route<D, R>, kwargs: seq<Argument>, key: string)
    ensures KeyOf(route, kwargs) == Ok(key) <==>
      exists prefix, id :: Renders(route.prefix, kwargs, prefix) && IsAbout(route, kwargs, id) && key == prefix + ":" + id
  {
    if KeyOf(route, kwargs) == Ok(key) {
      var prefix, id := Formatted(route.prefix, kwargs).value, ResourceId(route, kwargs).value;
      FormattedIff(route.prefix, kwargs, prefix);
      ResourceIdIff(route, kwargs, id);
      assert key == prefix + ":" + id;
    }
    if prefix, id :| Renders(route.prefix, kwargs, prefix) && IsAbout(route, kwargs, id) && key == prefix + ":" + id {
      FormattedIff(route.prefix, kwargs, prefix);
      ResourceIdIff(route, kwargs, id);
    }
  }

  /** There is no key exactly when the prefix cannot be rendered or the call is about nothing; an id that cannot be inferred
      has an error of its own. */
  lemma KeyRefusedIff<D, R>(route: Route<D, R>, kwargs: seq<Argument>)
    ensures var about := exists id :: IsAbout(route, kwargs, id);
      && (KeyOf(route, kwargs).Ok? <==> about && Renderable(route.prefix, kwargs))
      && (KeyOf(route, kwargs).Err? ==>
            KeyOf(route, kwargs).error == if route.idName.None? && !about then CannotInferId else MissingArgument)
  {
    RenderableIff(route.prefix, kwargs);
    if ResourceId(route, kwargs).Ok? {
      ResourceIdIff(route, kwargs, ResourceId(route, kwargs).value);
    }
    if id :| IsAbout(route, kwargs, id) {
      ResourceIdIff(route, kwargs, id);
    }
    if route.idName.None? {
      InferredIdIsLast(kwargs, route.idType);
    }
  }

  /** Under the same prefix, keys differ exactly when the ids do. */
  lemma KeysEqualIff<D, R>(route: Route<D, R>, one: seq<Argument>, two: seq<Argument>, a: string, b: string)
    requires Formatted(route.prefix, one).Some? && Formatted(route.prefix, one) == Formatted(route.prefix, two)
    requires IsAbout(route, one, a) && IsAbout(route, two, b)
    ensures KeyOf(route, one).Ok? && KeyOf(route, two).Ok?
    ensures KeyOf(route, one) == KeyOf(route, two) <==> a == b
  {
    ResourceIdIff(route, one, a);
    ResourceIdIff(route, two, b);
    var prefix := Formatted(route.prefix, one).value + ":";
    assert prefix + a == prefix + b ==> (prefix + a)[|prefix|..] == (prefix + b)[|prefix|..];
    assert (prefix + a)[|prefix|..] == a && (prefix + b)[|prefix|..] == b;
  }

  /** The extra keys, by prefix: of two templates that format alike, the later one's id counts. */
  function ExtraKeys(extra: seq<(Template, Template)>, kwargs: seq<Argument>): Result<map<string, string>, CacheError> {
    if extra == [] then Ok(map[])
    else
      match ExtraKeys(extra[..|extra| - 1], kwargs)
      case Err(e) => Err(e)
      case Ok(keys) =>
        var prefix := Formatted(Last(extra).0, kwargs);
        var field := FirstField(Last(extra).1);
        if prefix.None? then Err(MissingArgument)
        else if field.None? then Err(NoFieldInTemplate)
        else
          match Lookup(kwargs, field.value)
          case None => Err(MissingArgument)
          case Some(id) => Ok(keys[prefix.value := id])
  }

  /** Patterns are formatted one by one as they are used, up to the first that cannot be. */
  function Usable(patterns: seq<Template>, kwargs: seq<Argument>): (n: nat)
    ensures n <= |patterns|
    ensures forall i :: 0 <= i < n ==> Formatted(patterns[i], kwargs).Some?
    ensures n < |patterns| ==> Formatted(patterns[n], kwargs).None?
  {
    if patterns == [] || Formatted(patterns[0], kwargs).None? then 0 else 1 + Usable(patterns[1..], kwargs)
  }

  /** Whether a write that ran as far as its invalidation deletes a key. */
  predicate Invalidates<D, R, J>(app: App<D, R, J>, route: Route<D, R>, kwargs: seq<Argument>, key: string) {
    KeyOf(route, kwargs) == Ok(key) || InvalidatesExtra(app, route, kwargs, key)
  }

  predicate InvalidatesExtra<D, R, J>(app: App<D, R, J>, route: Route<D, R>, kwargs: seq<Argument>, key: string) {
    var extra := ExtraKeys(Listed(route.extra), kwargs);
    extra.Ok? && (IsExtraKey(extra.value, key) || MatchedByPattern(app, Listed(route.patterns), kwargs, key))
  }

  predicate IsExtraKey(extra: map<string, string>, key: string) {
    exists p :: p in extra && key == p + ":" + extra[p]
  }

  predicate MatchedByPattern<D, R, J>(app: App<D, R, J>, patterns: seq<Template>, kwargs: seq<Argument>, key: string) {
    MatchedByFirst(app, patterns, kwargs, Usable(patterns, kwargs), key)
  }

  predicate MatchedByFirst<D, R, J>(app: App<D, R, J>, patterns: seq<Template>, kwargs: seq<Argument>, n: nat, key: string)
    requires n <= |patterns|
  {
    exists i :: 0 <= i < n && Matched(app, patterns[i], kwargs, key)
  }

  lemma MatchedByNext<D, R, J>(app: App<D, R, J>, patterns: seq<Template>, kwargs: seq<Argument>, n: nat)
    requires n < |patterns|
    ensures forall k :: MatchedByFirst(app, patterns, kwargs, n + 1, k) <==>
                        (MatchedByFirst(app, patterns, kwargs, n, k) || Matched(app, patterns[n], kwargs, k))
  {
  }

  predicate Matched<D, R, J>(app: App<D, R, J>, pattern: Template, kwargs: seq<Argument>, key: string) {
    var text := Formatted(pattern, kwargs);
    text.Some? && app.matches(text.value + "*", key)
  }

  function InvalidationError<D, R>(route: Route<D, R>, kwargs: seq<Argument>): Option<CacheError> {
    var extra := ExtraKeys(Listed(route.extra), kwargs);
    var patterns := Listed(route.patterns);
    if extra.Err? then Some(extra.error)
    else if Usable(patterns, kwargs) < |patterns| then Some(MissingArgument)
    else None
  }

  // ---- What a write deletes ----

  /** The argument that the template's first field names has that text. */
  ghost predicate FieldSays(t: Template, kwargs: seq<Argument>, text: string) {
    exists k :: FirstFieldAt(t, k) && Says(kwargs, t[k].name, text)
  }

  predicate FirstFieldAt(t: Template, k: int) {
    0 <= k < |t| && t[k].Field? && forall j :: 0 <= j < k ==> !t[j].Field?
  }

  lemma {:induction false} FirstFieldIff(t: Template, name: string)
    ensures FirstField(t) == Some(name) <==> exists k :: FirstFieldAt(t, k) && t[k].name == name
  {
    if t != [] && !t[0].Field? {
      FirstFieldIff(t[1..], name);
      if k :| FirstFieldAt(t[1..], k) && t[1..][k].name == name {
        assert FirstFieldAt(t, k + 1) && t[k + 1].name == name;
      }
      if k :| FirstFieldAt(t, k) && t[k].name == name {
        assert FirstFieldAt(t[1..], k - 1) && t[1..][k - 1].name == name;
      }
    } else if t != [] {
      assert FirstFieldAt(t, 0);
    }
  }

  /** The entry of the extra configuration comes to that prefix and id. */
  ghost predicate Sets(entry: (Template, Template), kwargs: seq<Argument>, prefix: string, id: string) {
    Renders(entry.0, kwargs, prefix) && FieldSays(entry.1, kwargs, id)
  }

  lemma SetsIff(entry: (Template, Template), kwargs: seq<Argument>, prefix: string, id: string)
    ensures Sets(entry, kwargs, prefix, id) <==>
      Formatted(entry.0, kwargs) == Some(prefix) && FirstField(entry.1).Some?
      && Lookup(kwargs, FirstField(entry.1).value) == Some(id)
  {
    FormattedIff(entry.0, kwargs, prefix);
    if FirstField(entry.1).Some? {
      FirstFieldIff(entry.1, FirstField(entry.1).value);
      LookupIff(kwargs, FirstField(entry.1).value, id);
    }
    if FieldSays(entry.1, kwargs, id) {
      var k :| FirstFieldAt(entry.1, k) && Says(kwargs, entry.1[k].name, id);
      FirstFieldIff(entry.1, entry.1[k].name);
      LookupIff(kwargs, entry.1[k].name, id);
    }
  }

  /** The last entry of that prefix has that id. */
  ghost predicate LastSets(extra: seq<(Template, Template)>, kwargs: seq<Argument>, prefix: string, id: string) {
    exists i :: LastSetsAt(extra, kwargs, prefix, id, i)
  }

  ghost predicate LastSetsAt(extra: seq<(Template, Template)>, kwargs: seq<Argument>, prefix: string, id: string, i: int) {
    0 <= i < |extra| && Sets(extra[i], kwargs, prefix, id) && forall j :: i < j < |extra| ==> !Renders(extra[j].0, kwargs, prefix)
  }

  /** When every entry can be formatted, the mapping has exactly the ids of the last entry of each prefix. */
  lemma {:induction false} ExtraKeysAre(extra: seq<(Template, Template)>, kwargs: seq<Argument>, prefix: string, id: string)
    requires ExtraKeys(extra, kwargs).Ok?
    ensures var keys := ExtraKeys(extra, kwargs).value;
      prefix in keys && keys[prefix] == id <==> LastSets(extra, kwargs, prefix, id)
  {
    if extra != [] {
      var n := |extra| - 1;
      ExtraKeysAre(extra[..n], kwargs, prefix, id);
      var last := Formatted(extra[n].0, kwargs).value;
      SetsIff(extra[n], kwargs, prefix, id);
      FormattedIff(extra[n].0, kwargs, prefix);
      if last == prefix {
        assert LastSets(extra, kwargs, prefix, id) ==> LastSetsAt(extra, kwargs, prefix, id, n);
        assert Sets(extra[n], kwargs, prefix, id) ==> LastSetsAt(extra, kwargs, prefix, id, n);
      } else {
        assert forall i :: LastSetsAt(extra, kwargs, prefix, id, i) <==> LastSetsAt(extra[..n], kwargs, prefix, id, i);
      }
    }
  }

  ghost predicate Settable(entry: (Template, Template), kwargs: seq<Argument>) {
    exists prefix, id :: Sets(entry, kwargs, prefix, id)
  }

  lemma SettableIff(entry: (Template, Template), kwargs: seq<Argument>)
    ensures Settable(entry, kwargs) <==>
      Formatted(entry.0, kwargs).Some? && FirstField(entry.1).Some? && Lookup(kwargs, FirstField(entry.1).value).Some?
  {
    if Settable(entry, kwargs) {
      var prefix, id :| Sets(entry, kwargs, prefix, id);
      SetsIff(entry, kwargs, prefix, id);
    }
    if Formatted(entry.0, kwargs).Some? && FirstField(entry.1).Some? && Lookup(kwargs, FirstField(entry.1).value).Some? {
      SetsIff(entry, kwargs, Formatted(entry.0, kwargs).value, Lookup(kwargs, FirstField(entry.1).value).value);
    }
  }

  /** A mapping is built exactly when every entry comes to some prefix and id. */
  lemma {:induction false} ExtraKeysOkIff(extra: seq<(Template, Template)>, kwargs: seq<Argument>)
    ensures ExtraKeys(extra, kwargs).Ok? <==> forall i :: 0 <= i < |extra| ==> Settable(extra[i], kwargs)
  {
    if extra != [] {
      var n := |extra| - 1;
      ExtraKeysOkIff(extra[..n], kwargs);
      assert forall i :: 0 <= i < n ==> extra[..n][i] == extra[i];
      SettableIff(extra[n], kwargs);
    }
  }

  ghost predicate Renderable(t: Template, kwargs: seq<Argument>) {
    exists text :: Renders(t, kwargs, text)
  }

  lemma RenderableIff(t: Template, kwargs: seq<Argument>)
    ensures Renderable(t, kwargs) <==> Formatted(t, kwargs).Some?
  {
    if Renderable(t, kwargs) {
      var text :| Renders(t, kwargs, text);
      FormattedIff(t, kwargs, text);
    }
    if Formatted(t, kwargs).Some? {
      FormattedIff(t, kwargs, Formatted(t, kwargs).value);
    }
  }

  /** Every extra entry comes to a key, and every pattern to a text. */
  ghost predicate Formattable<D, R>(route: Route<D, R>, kwargs: seq<Argument>) {
    && (forall i :: 0 <= i < |Listed(route.extra)| ==> Settable(Listed(route.extra)[i], kwargs))
    && (forall i :: 0 <= i < |Listed(route.patterns)| ==> Renderable(Listed(route.patterns)[i], kwargs))
  }

  lemma FormattableIff<D, R>(route: Route<D, R>, kwargs: seq<Argument>)
    ensures InvalidationError(route, kwargs).None? <==> Formattable(route, kwargs)
  {
    var patterns := Listed(route.patterns);
    ExtraKeysOkIff(Listed(route.extra), kwargs);
    forall i | 0 <= i < |patterns| ensures Renderable(patterns[i], kwargs) <==> Formatted(patterns[i], kwargs).Some? {
      RenderableIff(patterns[i], kwargs);
    }
  }

  /** The key is one that the extra entries come to. */
  ghost predicate NamedByExtra(extra: seq<(Template, Template)>, kwargs: seq<Argument>, key: string) {
    exists prefix, id :: LastSets(extra, kwargs, prefix, id) && key == prefix + ":" + id
  }

  lemma NamedByExtraIff(extra: seq<(Template, Template)>, kwargs: seq<Argument>, key: string)
    requires ExtraKeys(extra, kwargs).Ok?
    ensures IsExtraKey(ExtraKeys(extra, kwargs).value, key) <==> NamedByExtra(extra, kwargs, key)
  {
    var keys := ExtraKeys(extra, kwargs).value;
    if IsExtraKey(keys, key) {
      var prefix :| prefix in keys && key == prefix + ":" + keys[prefix];
      ExtraKeysAre(extra, kwargs, prefix, keys[prefix]);
    }
    if NamedByExtra(extra, kwargs, key) {
      var prefix, id :| LastSets(extra, kwargs, prefix, id) && key == prefix + ":" + id;
      ExtraKeysAre(extra, kwargs, prefix, id);
    }
  }

  /** What the pattern comes to, with a star, matches the key. */
  ghost predicate PatternTakes<D, R, J>(app: App<D, R, J>, pattern: Template, kwargs: seq<Argument>, key: string) {
    exists text :: Renders(pattern, kwargs, text) && app.matches(text + "*", key)
  }

  lemma PatternTakesIff<D, R, J>(app: App<D, R, J>, pattern: Template, kwargs: seq<Argument>, key: string)
    ensures Matched(app, pattern, kwargs, key) <==> PatternTakes(app, pattern, kwargs, key)
  {
    if PatternTakes(app, pattern, kwargs, key) {
      var text :| Renders(pattern, kwargs, text) && app.matches(text + "*", key);
      FormattedIff(pattern, kwargs, text);
    }
    if Matched(app, pattern, kwargs, key) {
      FormattedIff(pattern, kwargs, Formatted(pattern, kwargs).value);
    }
  }

  /** A write deletes its own key; if every extra entry comes to a key, then also these, and what the patterns match up to
      the first that cannot be formatted; and nothing else. */
  lemma InvalidatesIff<D, R, J>(app: App<D, R, J>, route: Route<D, R>, kwargs: seq<Argument>, key: string)
    ensures var extra, patterns := Listed(route.extra), Listed(route.patterns);
      Invalidates(app, route, kwargs, key) <==>
        || KeyOf(route, kwargs) == Ok(key)
        || ((forall i :: 0 <= i < |extra| ==> Settable(extra[i], kwargs))
            && (|| NamedByExtra(extra, kwargs, key)
                || exists i :: 0 <= i < |patterns| && (forall j :: 0 <= j <= i ==> Renderable(patterns[j], kwargs))
                               && PatternTakes(app, patterns[i], kwargs, key)))
  {
    var extra, patterns := Listed(route.extra), Listed(route.patterns);
    ExtraKeysOkIff(extra, kwargs);
    if ExtraKeys(extra, kwargs).Ok? {
      NamedByExtraIff(extra, kwargs, key);
    }
    forall i | 0 <= i < |patterns|
      ensures Matched(app, patterns[i], kwargs, key) <==> PatternTakes(app, patterns[i], kwargs, key)
      ensures Renderable(patterns[i], kwargs) <==> Formatted(patterns[i], kwargs).Some?
    {
      PatternTakesIff(app, patterns[i], kwargs, key);
      RenderableIff(patterns[i], kwargs);
    }
  }

  function Serve<D, R, J>(app: App<D, R, J>, s: State<D>, call: Call): (State<D>, Response<R, J>)
    requires call.route < |app.routes|
  {
    var route := app.routes[call.route];
    match KeyOf(route, call.kwargs)
    case Err(e) => (s, Failed(e))
    case Ok(key) =>
      match route.handler
      case Read(read) =>
        if route.extra.Some? || route.patterns.Some? then (s, Failed(InvalidRequest))
        else if key in s.store && s.store[key] != "" then (s, Json(app.loads(s.store[key])))
        else (
          match Rendered(app, read(s.db, call.kwargs))
          case Err(e) => (s, Failed(e))
          case Ok(text) => (s.(store := s.store[key := text]), Json(app.loads(text))))
      case Write(write) =>
        var done := write(s.db, call.kwargs);
        match done.1
        case None => (s.(db := done.0), Failed(Raised))
        case Some(result) =>
          var kept := map k | k in s.store && !Invalidates(app, route, call.kwargs, k) :: s.store[k];
          var error := InvalidationError(route, call.kwargs);
          (State(done.0, kept), if error.Some? then Failed(error.value) else Raw(result))
  }

  function Rendered<D, R, J>(app: App<D, R, J>, result: Option<R>): Result<string, CacheError> {
    match result
    case None => Err(Raised)
    case Some(r) =>
      match app.dumps(r)
      case None => Err(NotSerializable)
      case Some(text) => Ok(text)
  }

  // ---- The decorator over a Redis client ----

  datatype ScanReply = ScanReply(cursor: nat, keys: seq<string>)

  /** One SCAN: the keys there were, the cursor it was given, and its reply. */
  datatype ScanCall = ScanCall(present: set<string>, cursor: nat, reply: ScanReply)

  /** SCANs that hand on the cursor, from zero until it is zero again. */
  ghost predicate FullCycle(calls: seq<ScanCall>) {
    calls != [] && Last(calls).reply.cursor == 0 && Chained(calls)
  }

  ghost predicate Chained(calls: seq<ScanCall>) {
    && (calls != [] ==> calls[0].cursor == 0)
    && forall i :: 0 < i < |calls| ==> HandsOn(calls[i - 1], calls[i])
  }

  predicate HandsOn(call: ScanCall, next: ScanCall) {
    call.reply.cursor == next.cursor != 0
  }

  ghost predicate PresentThroughout(calls: seq<ScanCall>, key: string) {
    forall i :: 0 <= i < |calls| ==> key in calls[i].present
  }

  ghost predicate Given(calls: seq<ScanCall>, key: string) {
    exists i :: 0 <= i < |calls| && key in calls[i].reply.keys
  }

  class Client<!D, !R, J> {
    const app: App<D, R, J>
    /** What SCAN replies to a cursor and a pattern when the given keys are there. */
    const scan: (set<string>, nat, string) -> ScanReply
    /** How much of the key space is still ahead at a cursor other than zero. */
    const ahead: nat -> nat
    var store: map<string, string>

    /** The calls were answered by this server. */
    ghost predicate Answered(calls: seq<ScanCall>, pattern: string) {
      forall i :: 0 <= i < |calls| ==> calls[i].reply == scan(calls[i].present, calls[i].cursor, pattern)
    }

    /** What Redis promises of SCAN: matching keys only; each call gets on; and over a full cycle, whatever is deleted
        meanwhile, every matching key that was there all the time is given at least once. */
    ghost predicate Valid() {
      && (forall present, cursor, pattern, k :: k in scan(present, cursor, pattern).keys ==> app.matches(pattern, k))
      && (forall present, cursor, pattern :: GetsOn(cursor, scan(present, cursor, pattern).cursor))
      && (forall calls, pattern, k ::
            FullCycle(calls) && Answered(calls, pattern) && app.matches(pattern, k) && PresentThroughout(calls, k) ==>
              Given(calls, k))
    }

    predicate GetsOn(cursor: nat, next: nat) {
      next == 0 || cursor == 0 || ahead(next) < ahead(cursor)
    }

    constructor (app: App<D, R, J>, scan: (set<string>, nat, string) -> ScanReply, ahead: nat -> nat)
      ensures this.app == app && this.scan == scan && this.ahead == ahead && store == map[]
    {
      this.app, this.scan, this.ahead, store := app, scan, ahead, map[];
    }

    method Delete(keys: seq<string>)
      modifies this
      ensures store == map k | k in old(store) && k !in keys :: old(store)[k]
    {
      store := map k | k in store && k !in keys :: store[k];
    }

    /** What has been done after some calls: whatever is left was there at each of them and given by none, and only
        matching keys are gone. */
    ghost predicate Swept(before: map<string, string>, now: map<string, string>, calls: seq<ScanCall>, pattern: string) {
      && Answered(calls, pattern)
      && (forall k :: k in now ==> k in before && now[k] == before[k] && PresentThroughout(calls, k) && !Given(calls, k))
      && (forall k :: k in before && k !in now ==> app.matches(pattern, k))
    }

    lemma SweepsOn(before: map<string, string>, now: map<string, string>, calls: seq<ScanCall>, pattern: string, cursor: nat)
      requires Valid() && Swept(before, now, calls, pattern)
      ensures var reply := scan(now.Keys, cursor, pattern);
        Swept(before, map k | k in now && k !in reply.keys :: now[k], calls + [ScanCall(now.Keys, cursor, reply)], pattern)
    {
      var reply := scan(now.Keys, cursor, pattern);
      var more := calls + [ScanCall(now.Keys, cursor, reply)];
      forall k | k in now && k !in reply.keys ensures PresentThroughout(more, k) && !Given(more, k) {
        assert PresentThroughout(calls, k) && !Given(calls, k);
      }
    }

    /** A matching key that survived a whole cycle would have been there all the time, hence given, hence deleted. */
    lemma NothingSurvives(before: map<string, string>, now: map<string, string>, calls: seq<ScanCall>, pattern: string)
      requires Valid() && Swept(before, now, calls, pattern) && FullCycle(calls)
      ensures now == map k | k in before && !app.matches(pattern, k) :: before[k]
    {
      forall k | k in now ensures !app.matches(pattern, k) {
        assert PresentThroughout(calls, k) && !Given(calls, k);
      }
    }

    /** Nothing that matches is left, and nothing else is touched. */
    method DeleteKeysByPattern(pattern: string)
      requires Valid()
      modifies this
      ensures store == map k | k in old(store) && !app.matches(pattern, k) :: old(store)[k]
    {
      ghost var before := store;
      ghost var calls: seq<ScanCall> := [];
      var cursor := 0;
      while true
        invariant Swept(before, store, calls, pattern) && Chained(calls)
        invariant if calls == [] then cursor == 0 else cursor == Last(calls).reply.cursor != 0
        decreases calls == [], ahead(cursor)
      {
        SweepsOn(before, store, calls, pattern, cursor);
        var reply := scan(store.Keys, cursor, pattern);
        calls := calls + [ScanCall(store.Keys, cursor, reply)];
        if reply.keys != [] {
          Delete(reply.keys);
        } else {
          assert store == map k | k in store && k !in reply.keys :: store[k];
        }
        assert GetsOn(cursor, reply.cursor);
        cursor := reply.cursor;
        if cursor == 0 {
          break;
        }
      }
      NothingSurvives(before, store, calls, pattern);
    }

    method FormatExtraData(extra: seq<(Template, Template)>, kwargs: seq<Argument>)
      returns (r: Result<map<string, string>, CacheError>)
      ensures r == ExtraKeys(extra, kwargs)
    {
      var formatted := map[];
      for i := 0 to |extra|
        invariant ExtraKeys(extra[..i], kwargs) == Ok(formatted)
      {
        assert extra[..i + 1][..i] == extra[..i];
        var prefix := Formatted(extra[i].0, kwargs);
        var field := FirstField(extra[i].1);
        if prefix.None? || field.None? || Lookup(kwargs, field.value).None? {
          r := Err(if prefix.Some? && field.None? then NoFieldInTemplate else MissingArgument);
          ExtraKeysStop(extra, kwargs, i + 1);
          return;
        }
        formatted := formatted[prefix.value := Lookup(kwargs, field.value).value];
      }
      assert extra[..|extra|] == extra;
      r := Ok(formatted);
    }

    method DeleteExtraKeys(keys: map<string, string>)
      modifies this
      ensures store == map k | k in old(store) && !IsExtraKey(keys, k) :: old(store)[k]
    {
      ghost var before := store;
      var pending := keys.Keys;
      while pending != {}
        invariant pending <= keys.Keys
        invariant store == map k | k in before && !(exists p :: p in keys && p !in pending && k == p + ":" + keys[p]) :: before[k]
      {
        var prefix :| prefix in pending;
        Delete([prefix + ":" + keys[prefix]]);
        pending := pending - {prefix};
      }
    }

    method DeletePatterns(patterns: seq<Template>, kwargs: seq<Argument>) returns (error: Option<CacheError>)
      requires Valid()
      modifies this
      ensures error == if Usable(patterns, kwargs) < |patterns| then Some(MissingArgument) else None
      ensures store == map k | k in old(store) && !MatchedByPattern(app, patterns, kwargs, k) :: old(store)[k]
    {
      ghost var before := store;
      ghost var usable := Usable(patterns, kwargs);
      for i := 0 to |patterns|
        invariant i <= usable
        invariant store == map k | k in before && !MatchedByFirst(app, patterns, kwargs, i, k) :: before[k]
      {
        var pattern := Formatted(patterns[i], kwargs);
        if pattern.None? {
          return Some(MissingArgument);
        }
        DeleteKeysByPattern(pattern.value + "*");
        MatchedByNext(app, patterns, kwargs, i);
      }
      error := None;
    }

    method InvalidateExtra(route: Route<D, R>, kwargs: seq<Argument>) returns (error: Option<CacheError>)
      requires Valid()
      modifies this
      ensures error == InvalidationError(route, kwargs)
      ensures store == map k | k in old(store) && !InvalidatesExtra(app, route, kwargs, k) :: old(store)[k]
    {
      if route.extra.Some? {
        var extra := FormatExtraData(route.extra.value, kwargs);
        if extra.Err? {
          return Some(extra.error);
        }
        DeleteExtraKeys(extra.value);
      }
      error := None;
      if route.patterns.Some? {
        error := DeletePatterns(route.patterns.value, kwargs);
      }
    }

    method Invalidate(route: Route<D, R>, kwargs: seq<Argument>, key: string) returns (error: Option<CacheError>)
      requires Valid() && KeyOf(route, kwargs) == Ok(key)
      modifies this
      ensures error == InvalidationError(route, kwargs)
      ensures store == map k | k in old(store) && !Invalidates(app, route, kwargs, k) :: old(store)[k]
    {
      Delete([key]);
      error := InvalidateExtra(route, kwargs);
    }

    method Invoke(db: D, call: Call) returns (after: D, response: Response<R, J>)
      requires Valid() && call.route < |app.routes|
      modifies this
      ensures (State(after, store), response) == Serve(app, State(db, old(store)), call)
    {
      var route, kwargs := app.routes[call.route], call.kwargs;
      after := db;
      var id: Result<string, CacheError>;
      if route.idName.Some? {
        var named := Lookup(kwargs, route.idName.value);
        id := if named.Some? then Ok(named.value) else Err(MissingArgument);
      } else {
        id := InferResourceId(kwargs, route.idType);
      }
      if id.Err? {
        return after, Failed(id.error);
      }
      var prefix := Formatted(route.prefix, kwargs);
      if prefix.None? {
        return after, Failed(MissingArgument);
      }
      var key := prefix.value + ":" + id.value;
      match route.handler
      case Read(read) =>
        if route.extra.Some? || route.patterns.Some? {
          return after, Failed(InvalidRequest);
        }
        if key in store && store[key] != "" {
          return after, Json(app.loads(store[key]));
        }
        var text := Rendered(app, read(db, kwargs));
        if text.Err? {
          return after, Failed(text.error);
        }
        store := store[key := text.value];
        response := Json(app.loads(text.value));
      case Write(write) =>
        var done := write(db, kwargs);
        after := done.0;
        if done.1.None? {
          return after, Failed(Raised);
        }
        var error := Invalidate(route, kwargs, key);
        if error.Some? {
          return after, Failed(error.value);
        }
        response := Raw(done.1.value);
    }
  }

  /** An entry that cannot be formatted fails the whole mapping. */
  lemma {:induction false} ExtraKeysStop(extra: seq<(Template, Template)>, kwargs: seq<Argument>, n: nat)
    requires 0 < n <= |extra| && ExtraKeys(extra[..n], kwargs).Err?
    ensures ExtraKeys(extra, kwargs) == ExtraKeys(extra[..n], kwargs)
  {
    if n < |extra| {
      assert extra[..|extra| - 1][..n] == extra[..n];
      ExtraKeysStop(extra[..|extra| - 1], kwargs, n);
    } else {
      assert extra[..n] == extra;
    }
  }
}
