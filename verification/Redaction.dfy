/** Redaction of sensitive fields in nested log payloads. */
module Redaction {
  import opened Common

  /** A mapping key and the text it is shown as. Keys of different types may be shown alike. */
  datatype Key = Key(typeName: string, text: string)

  datatype Value =
    | Text(text: string)
    | Atom(id: int)
    | Mapping(entries: map<Key, Value>)
    | Tuple(items: seq<Value>)
    | List(items: seq<Value>)
    | SetOf(members: set<Value>)

  /** Names and fragments are compared as given with normalized field names. */
  datatype Rules = Rules(exact: set<string>, fragments: seq<string>, replacement: string)

  // ---- Field names (ASCII) ----

  function Fold(c: char): char {
    if 'A' <= c <= 'Z' then c - 'A' + 'a' else c
  }

  predicate IsNameChar(c: char) {
    'a' <= c <= 'z' || '0' <= c <= '9'
  }

  function NormalizeName(name: string): string {
    if name == "" then ""
    else (if IsNameChar(Fold(name[0])) then [Fold(name[0])] else "") + NormalizeName(name[1..])
  }

  predicate IsNormal(name: string) {
    forall c :: c in name ==> IsNameChar(c)
  }

  predicate Sensitive(rules: Rules, name: string) {
    var normalized := NormalizeName(name);
    normalized in rules.exact || exists i :: 0 <= i < |rules.fragments| && Contains(normalized, rules.fragments[i])
  }

  lemma {:induction false} NormalizedIsNormal(name: string)
    ensures IsNormal(NormalizeName(name))
    ensures IsNormal(name) ==> NormalizeName(name) == name
  {
    if name != "" {
      NormalizedIsNormal(name[1..]);
      assert name == [name[0]] + name[1..];
      assert name[0] in name && forall c :: c in name[1..] ==> c in name;
    }
  }

  lemma {:induction false} NormalizedContainsNormal(name: string, fragment: string)
    requires IsNormal(name) && Contains(name, fragment)
    ensures IsNormal(fragment)
  {
    if fragment <= name {
      assert forall c :: c in fragment ==> c in name;
    } else {
      NormalizedContainsNormal(name[1..], fragment);
    }
  }

  /** Case and separators never matter. */
  lemma SpellingIsImmaterial(rules: Rules, name: string, spelling: string)
    requires NormalizeName(name) == NormalizeName(spelling)
    ensures Sensitive(rules, name) == Sensitive(rules, spelling)
    ensures Sensitive(rules, NormalizeName(name)) == Sensitive(rules, name)
  {
    NormalizedIsNormal(NormalizeName(name));
    NormalizedIsNormal(name);
  }

  /** An exact name, or a fragment, makes some field sensitive exactly when it is itself normalized: "api_key" as
      given never matches. */
  lemma RuleTakesEffectIff(entry: string)
    ensures (exists name :: Sensitive(Rules({entry}, [], ""), name)) <==> IsNormal(entry)
    ensures (exists name :: Sensitive(Rules({}, [entry], ""), name)) <==> IsNormal(entry)
  {
    if IsNormal(entry) {
      NormalizedIsNormal(entry);
      assert Contains(entry, entry);
      assert Sensitive(Rules({entry}, [], ""), entry);
      assert Contains(NormalizeName(entry), Rules({}, [entry], "").fragments[0]);
      assert Sensitive(Rules({}, [entry], ""), entry);
    }
    forall name | Sensitive(Rules({entry}, [], ""), name) || Sensitive(Rules({}, [entry], ""), name)
      ensures IsNormal(entry)
    {
      NormalizedIsNormal(name);
      if NormalizeName(name) != entry {
        NormalizedContainsNormal(NormalizeName(name), entry);
      }
    }
  }

  lemma {:induction false} NormalizeConcat(a: string, b: string)
    ensures NormalizeName(a + b) == NormalizeName(a) + NormalizeName(b)
  {
    if a == "" {
      assert a + b == b;
    } else {
      assert (a + b)[0] == a[0] && (a + b)[1..] == a[1..] + b;
      NormalizeConcat(a[1..], b);
      var head := if IsNameChar(Fold(a[0])) then [Fold(a[0])] else "";
      assert NormalizeName(a) == head + NormalizeName(a[1..]);
      assert NormalizeName(a + b) == head + NormalizeName(a[1..] + b);
    }
  }

  lemma {:induction false} ContainsMiddle(a: string, b: string, c: string)
    ensures Contains(a + b + c, b)
  {
    if a == "" {
      assert a + b + c == b + c;
    } else {
      assert (a + b + c)[1..] == a[1..] + b + c;
      ContainsMiddle(a[1..], b, c);
    }
  }

  /** Letter by letter: letters and digits stay, in lower case, and everything else goes. */
  lemma NormalizeNameIs(a: string, c: char, b: string)
    ensures NormalizeName(a + [c] + b) == NormalizeName(a) + NormalizeName([c]) + NormalizeName(b)
    ensures NormalizeName([c]) ==
      if 'A' <= c <= 'Z' then [c - 'A' + 'a'] else if 'a' <= c <= 'z' || '0' <= c <= '9' then [c] else ""
  {
    NormalizeConcat(a + [c], b);
    NormalizeConcat(a, [c]);
  }

  ghost predicate Inside(fragment: string, text: string) {
    exists before, after :: text == before + fragment + after
  }

  /** A name is sensitive exactly when its normal form is an exact name, or has a fragment somewhere in it. */
  lemma SensitiveIff(rules: Rules, name: string)
    ensures Sensitive(rules, name) <==>
      || NormalizeName(name) in rules.exact
      || exists i :: 0 <= i < |rules.fragments| && Inside(rules.fragments[i], NormalizeName(name))
  {
    forall i | 0 <= i < |rules.fragments|
      ensures Contains(NormalizeName(name), rules.fragments[i]) <==> Inside(rules.fragments[i], NormalizeName(name))
    {
      ContainsIff(NormalizeName(name), rules.fragments[i]);
    }
  }

  /** The logger normalizes what is configured first. */
  function LoggerRules(exact: set<string>, fragments: seq<string>, replacement: string): Rules {
    Rules(set e | e in exact :: NormalizeName(e), seq(|fragments|, i requires 0 <= i < |fragments| => NormalizeName(fragments[i])),
          replacement)
  }

  /** A name is sensitive exactly when it is a spelling of a configured name, or a spelling of a configured fragment is in it. */
  lemma ConfiguredIff(exact: set<string>, fragments: seq<string>, replacement: string, name: string)
    ensures Sensitive(LoggerRules(exact, fragments, replacement), name) <==>
      || (exists e :: e in exact && NormalizeName(name) == NormalizeName(e))
      || exists i :: 0 <= i < |fragments| && Inside(NormalizeName(fragments[i]), NormalizeName(name))
    ensures LoggerRules(exact, fragments, replacement).replacement == replacement
  {
    var rules := LoggerRules(exact, fragments, replacement);
    SensitiveIff(rules, name);
    assert forall i :: 0 <= i < |fragments| ==> rules.fragments[i] == NormalizeName(fragments[i]);
  }

  /** So any spelling of a configured name is sensitive, and any name in which a configured fragment occurs. */
  lemma ConfiguredNamesAreSensitive(exact: set<string>, fragments: seq<string>, replacement: string, before: string, after: string)
    ensures var rules := LoggerRules(exact, fragments, replacement);
      && (forall e, name :: e in exact && NormalizeName(name) == NormalizeName(e) ==> Sensitive(rules, name))
      && (forall i :: 0 <= i < |fragments| ==> Sensitive(rules, before + fragments[i] + after))
  {
    var rules := LoggerRules(exact, fragments, replacement);
    forall i | 0 <= i < |fragments| ensures Sensitive(rules, before + fragments[i] + after) {
      NormalizeConcat(before + fragments[i], after);
      NormalizeConcat(before, fragments[i]);
      ContainsMiddle(NormalizeName(before), NormalizeName(fragments[i]), NormalizeName(after));
      assert Contains(NormalizeName(before + fragments[i] + after), rules.fragments[i]);
    }
  }

  // ---- Values ----

  function Redact(rules: Rules, v: Value, field: Option<string>): Value
    decreases v
  {
    if field.Some? && Sensitive(rules, field.value) then Text(rules.replacement)
    else
      match v
      case Mapping(entries) => Mapping(map k | k in entries :: Redact(rules, entries[k], Some(k.text)))
      case Tuple(items) => Tuple(seq(|items|, i requires 0 <= i < |items| => Redact(rules, items[i], None)))
      case List(items) => List(seq(|items|, i requires 0 <= i < |items| => Redact(rules, items[i], None)))
      case SetOf(members) => SetOf(set x | x in members :: Redact(rules, x, None))
      case _ => v
  }

  function RedactEvent(rules: Rules, event: map<Key, Value>): map<Key, Value> {
    map k | k in event :: Redact(rules, event[k], Some(k.text))
  }

  /** Members of a set are hashable, so no mapping, list or set is inside them. */
  predicate Hashable(v: Value) {
    match v
    case Text(_) => true
    case Atom(_) => true
    case Tuple(items) => forall x :: x in items ==> Hashable(x)
    case _ => false
  }

  predicate WellFormed(v: Value) {
    match v
    case Mapping(entries) => forall k :: k in entries ==> WellFormed(entries[k])
    case Tuple(items) => forall x :: x in items ==> WellFormed(x)
    case List(items) => forall x :: x in items ==> WellFormed(x)
    case SetOf(members) => forall x :: x in members ==> Hashable(x)
    case _ => true
  }

  lemma {:induction false} HashableIsUnchanged(rules: Rules, v: Value)
    requires Hashable(v)
    ensures Redact(rules, v, None) == v
  {
    if v.Tuple? {
      forall x | x in v.items ensures Redact(rules, x, None) == x {
        HashableIsUnchanged(rules, x);
      }
    }
  }

  /** Redacting twice is redacting once, also when the replacement is itself text under a sensitive name. */
  lemma {:induction false} RedactIdempotent(rules: Rules, v: Value, field: Option<string>)
    ensures Redact(rules, Redact(rules, v, field), field) == Redact(rules, v, field)
    decreases v
  {
    if !(field.Some? && Sensitive(rules, field.value)) {
      match v
      case Mapping(entries) =>
        forall k | k in entries
          ensures Redact(rules, Redact(rules, entries[k], Some(k.text)), Some(k.text)) == Redact(rules, entries[k], Some(k.text))
        {
          RedactIdempotent(rules, entries[k], Some(k.text));
        }
      case Tuple(items) =>
        forall x | x in items ensures Redact(rules, Redact(rules, x, None), None) == Redact(rules, x, None) {
          RedactIdempotent(rules, x, None);
        }
      case List(items) =>
        forall x | x in items ensures Redact(rules, Redact(rules, x, None), None) == Redact(rules, x, None) {
          RedactIdempotent(rules, x, None);
        }
      case SetOf(members) =>
        forall x | x in members ensures Redact(rules, Redact(rules, x, None), None) == Redact(rules, x, None) {
          RedactIdempotent(rules, x, None);
        }
        var once := Redact(rules, v, field).members;
        assert forall y :: y in once ==> Redact(rules, y, None) == y;
        assert (set y | y in once :: Redact(rules, y, None)) == once;
      case _ =>
    }
  }

  // ---- Where things are ----

  datatype Step = Entry(key: Key) | Item(index: nat)

  function At(v: Value, path: seq<Step>): Option<Value> {
    if path == [] then Some(v)
    else
      match path[0]
      case Entry(key) => if v.Mapping? && key in v.entries then At(v.entries[key], path[1..]) else None
      case Item(i) => if (v.Tuple? || v.List?) && i < |v.items| then At(v.items[i], path[1..]) else None
  }

  predicate SensitiveStep(rules: Rules, step: Step) {
    step.Entry? && Sensitive(rules, step.key.text)
  }

  predicate Open(rules: Rules, path: seq<Step>) {
    forall i :: 0 <= i < |path| ==> !SensitiveStep(rules, path[i])
  }

  /** On a path through no sensitive name everything stays where it was. At the first sensitive name there is the
      replacement, just where there was something, and below it nothing. */
  lemma {:induction false} RedactAt(rules: Rules, v: Value, path: seq<Step>, step: Step, rest: seq<Step>)
    requires Open(rules, path)
    ensures var there, found := At(v, path), At(Redact(rules, v, None), path);
      found == if there.Some? then Some(Redact(rules, there.value, None)) else None
    ensures SensitiveStep(rules, step) ==>
              At(Redact(rules, v, None), path + [step] + rest) ==
              if At(v, path + [step]).Some? && rest == [] then Some(Text(rules.replacement)) else None
  {
    var full := path + [step] + rest;
    if path == [] {
      assert full[0] == step && full[1..] == rest;
      assert (path + [step])[1..] == [];
    } else {
      assert full[0] == path[0] && full[1..] == path[1..] + [step] + rest;
      assert (path + [step])[0] == path[0] && (path + [step])[1..] == path[1..] + [step];
      assert !SensitiveStep(rules, path[0]);
      match path[0]
      case Entry(key) =>
        if v.Mapping? && key in v.entries {
          RedactAt(rules, v.entries[key], path[1..], step, rest);
        }
      case Item(i) =>
        if (v.Tuple? || v.List?) && i < |v.items| {
          RedactAt(rules, v.items[i], path[1..], step, rest);
        }
    }
  }

  // ---- What can be told from the redacted form ----

  /** Same but for what is below sensitive names. */
  predicate AlikeOutside(rules: Rules, a: Value, b: Value) {
    match (a, b)
    case (Mapping(es), Mapping(fs)) =>
      && es.Keys == fs.Keys
      && forall k :: k in es ==> Sensitive(rules, k.text) || AlikeOutside(rules, es[k], fs[k])
    case (Tuple(xs), Tuple(ys)) => |xs| == |ys| && forall i :: 0 <= i < |xs| ==> AlikeOutside(rules, xs[i], ys[i])
    case (List(xs), List(ys)) => |xs| == |ys| && forall i :: 0 <= i < |xs| ==> AlikeOutside(rules, xs[i], ys[i])
    case _ => a == b
  }

  /** Redaction hides what is below sensitive names and nothing else. */
  lemma {:induction false} RedactKernel(rules: Rules, a: Value, b: Value)
    requires WellFormed(a) && WellFormed(b)
    ensures Redact(rules, a, None) == Redact(rules, b, None) <==> AlikeOutside(rules, a, b)
  {
    if a.Mapping? && b.Mapping? {
      var es, fs := a.entries, b.entries;
      assert Redact(rules, a, None).entries.Keys == es.Keys && Redact(rules, b, None).entries.Keys == fs.Keys;
      forall k | k in es && k in fs
        ensures Redact(rules, a, None).entries[k] == Redact(rules, b, None).entries[k] <==>
                Sensitive(rules, k.text) || AlikeOutside(rules, es[k], fs[k])
      {
        NamedOrNot(rules, es[k], k.text);
        NamedOrNot(rules, fs[k], k.text);
        RedactKernel(rules, es[k], fs[k]);
      }
    } else if (a.Tuple? && b.Tuple?) || (a.List? && b.List?) {
      forall i | 0 <= i < |a.items| && i < |b.items|
        ensures Redact(rules, a, None).items[i] == Redact(rules, b, None).items[i] <==> AlikeOutside(rules, a.items[i], b.items[i])
      {
        RedactKernel(rules, a.items[i], b.items[i]);
      }
    } else if a.SetOf? && b.SetOf? {
      SetIsUnchanged(rules, a.members);
      SetIsUnchanged(rules, b.members);
    }
  }

  lemma NamedOrNot(rules: Rules, v: Value, name: string)
    ensures Redact(rules, v, Some(name)) == if Sensitive(rules, name) then Text(rules.replacement) else Redact(rules, v, None)
  {
  }

  lemma SetIsUnchanged(rules: Rules, members: set<Value>)
    requires forall x :: x in members ==> Hashable(x)
    ensures Redact(rules, SetOf(members), None) == SetOf(members)
  {
    forall x | x in members ensures Redact(rules, x, None) == x {
      HashableIsUnchanged(rules, x);
    }
  }

  /** For event dictionaries: what is below a sensitive name makes no difference, and everything else does. */
  lemma EventKernel(rules: Rules, a: map<Key, Value>, b: map<Key, Value>)
    requires WellFormed(Mapping(a)) && WellFormed(Mapping(b))
    ensures RedactEvent(rules, a) == RedactEvent(rules, b) <==> AlikeOutside(rules, Mapping(a), Mapping(b))
    ensures RedactEvent(rules, RedactEvent(rules, a)) == RedactEvent(rules, a)
  {
    RedactKernel(rules, Mapping(a), Mapping(b));
    RedactIdempotent(rules, Mapping(a), None);
    assert forall e :: Redact(rules, Mapping(e), None) == Mapping(RedactEvent(rules, e));
  }
}
