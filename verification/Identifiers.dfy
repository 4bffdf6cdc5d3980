/** Normalisation of role and permission identifiers, for ASCII text. */
module Identifiers {
  import opened Common

  predicate IsSpace(c: char) {
    c == ' ' || '\t' <= c <= '\r' || '\U{1C}' <= c <= '\U{1F}'
  }

  function Lower(s: string): (r: string)
    ensures |r| == |s|
  {
    seq(|s|, i requires 0 <= i < |s| => if 'A' <= s[i] <= 'Z' then s[i] - 'A' + 'a' else s[i])
  }

  function Strip(s: string): string {
    if s == [] then []
    else if IsSpace(s[0]) then Strip(s[1..])
    else if IsSpace(Last(s)) then Strip(s[..|s| - 1])
    else s
  }

  function Normalize(s: string): string {
    Lower(Strip(s))
  }

  predicate Trimmed(s: string) {
    s == [] || (!IsSpace(s[0]) && !IsSpace(Last(s)))
  }

  lemma {:induction false} StripTrims(s: string)
    ensures Trimmed(Strip(s))
  {
    if s != [] && IsSpace(s[0]) {
      StripTrims(s[1..]);
    } else if s != [] && IsSpace(Last(s)) {
      StripTrims(s[..|s| - 1]);
    }
  }

  predicate AllSpace(s: string) {
    forall c :: c in s ==> IsSpace(c)
  }

  /** Stripping takes off space at both ends, and nothing else. */
  lemma {:induction false} StripIs(s: string) returns (before: string, after: string)
    ensures s == before + Strip(s) + after && AllSpace(before) && AllSpace(after)
  {
    before, after := "", "";
    if s != [] && IsSpace(s[0]) {
      var inner;
      inner, after := StripIs(s[1..]);
      before := [s[0]] + inner;
      assert s == [s[0]] + s[1..];
    } else if s != [] && IsSpace(Last(s)) {
      var init, inner := s[..|s| - 1], "";
      before, inner := StripIs(init);
      after := inner + [Last(s)];
      assert s == init + [Last(s)];
    }
  }

  /** The normal form is what is between the spaces, letter by letter in lower case. */
  lemma NormalizeIs(s: string) returns (before: string, middle: string, after: string)
    ensures s == before + middle + after && AllSpace(before) && AllSpace(after) && Trimmed(middle)
    ensures |Normalize(s)| == |middle|
    ensures forall i :: 0 <= i < |middle| ==>
      Normalize(s)[i] == if 'A' <= middle[i] <= 'Z' then middle[i] - 'A' + 'a' else middle[i]
  {
    before, after := StripIs(s);
    middle := Strip(s);
    StripTrims(s);
  }

  lemma NormalizeIdempotent(s: string)
    ensures Normalize(Normalize(s)) == Normalize(s)
  {
    StripTrims(s);
    assert Trimmed(Lower(Strip(s)));
    assert Lower(Lower(Strip(s))) == Lower(Strip(s));
  }

  /** The normal forms of the given names; names that come out empty are dropped. */
  function NormalizeSet(values: set<string>): set<string> {
    set v | v in values && Normalize(v) != "" :: Normalize(v)
  }

  predicate Normal(values: set<string>) {
    forall v :: v in values ==> v != "" && Normalize(v) == v
  }

  lemma NormalizeSetNormal(values: set<string>)
    ensures Normal(NormalizeSet(values))
  {
    forall v | v in values ensures Normalize(Normalize(v)) == Normalize(v) {
      NormalizeIdempotent(v);
    }
  }

  lemma NormalIsFixed(values: set<string>)
    requires Normal(values)
    ensures NormalizeSet(values) == values
  {
    forall v | v in values ensures v in NormalizeSet(values) {
      assert Normalize(v) == v;
    }
  }

  /** A mapping from names to sets of names, as written: a later spelling of a key replaces an earlier one. */
  function NormalizeMapping(entries: seq<(string, set<string>)>): map<string, set<string>> {
    if entries == [] then map[]
    else
      var (key, values) := Last(entries);
      var earlier := NormalizeMapping(entries[..|entries| - 1]);
      if Normalize(key) == "" then earlier else earlier[Normalize(key) := NormalizeSet(values)]
  }

  /** Of the entries whose key has that normal form, the last. */
  predicate LastEntry(entries: seq<(string, set<string>)>, key: string, i: int) {
    0 <= i < |entries| && Normalize(entries[i].0) == key && forall j :: i < j < |entries| ==> Normalize(entries[j].0) != key
  }

  /** A normalised mapping has, for each name but the empty one, the last entry's values in normal form. */
  lemma {:induction false} NormalizeMappingIs(entries: seq<(string, set<string>)>, key: string)
    ensures key in NormalizeMapping(entries) <==> key != "" && exists i :: LastEntry(entries, key, i)
    ensures forall i :: key != "" && LastEntry(entries, key, i) ==> NormalizeMapping(entries)[key] == NormalizeSet(entries[i].1)
  {
    if entries != [] {
      var n := |entries| - 1;
      NormalizeMappingIs(entries[..n], key);
      if Normalize(entries[n].0) == key {
        assert LastEntry(entries, key, n);
      } else {
        assert forall i :: LastEntry(entries, key, i) <==> LastEntry(entries[..n], key, i);
      }
    }
  }

  predicate NormalMapping(m: map<string, set<string>>) {
    forall k :: k in m ==> k != "" && Normalize(k) == k && Normal(m[k])
  }

  lemma {:induction false} NormalizeMappingNormal(entries: seq<(string, set<string>)>)
    ensures NormalMapping(NormalizeMapping(entries))
  {
    if entries != [] {
      var (key, values) := Last(entries);
      NormalizeMappingNormal(entries[..|entries| - 1]);
      NormalizeIdempotent(key);
      NormalizeSetNormal(values);
    }
  }

  /** The entries of a mapping, each key once. */
  ghost predicate Lists(entries: seq<(string, set<string>)>, m: map<string, set<string>>) {
    && (forall i :: 0 <= i < |entries| ==> entries[i].0 in m && m[entries[i].0] == entries[i].1)
    && (forall k :: k in m ==> exists i :: 0 <= i < |entries| && entries[i].0 == k)
  }

  /** Normalising a mapping that is already normal changes nothing, in whatever order its entries come. */
  lemma {:induction false} NormalizeMappingFixed(entries: seq<(string, set<string>)>, m: map<string, set<string>>)
    requires Lists(entries, m) && NormalMapping(m)
    ensures NormalizeMapping(entries) == m
  {
    NormalizeMappingKeeps(entries, m);
    var r := NormalizeMapping(entries);
    forall k | k in m ensures k in r {
      var i :| 0 <= i < |entries| && entries[i].0 == k;
    }
    assert r.Keys == m.Keys;
  }

  lemma {:induction false} NormalizeMappingKeeps(entries: seq<(string, set<string>)>, m: map<string, set<string>>)
    requires forall i :: 0 <= i < |entries| ==> entries[i].0 in m && m[entries[i].0] == entries[i].1
    requires NormalMapping(m)
    ensures forall k :: k in NormalizeMapping(entries) ==> k in m && NormalizeMapping(entries)[k] == m[k]
    ensures forall i :: 0 <= i < |entries| ==> entries[i].0 in NormalizeMapping(entries)
  {
    if entries != [] {
      var earlier := entries[..|entries| - 1];
      NormalizeMappingKeeps(earlier, m);
      NormalizeMappingNext(entries, m);
      forall i | 0 <= i < |entries| - 1 ensures entries[i].0 in NormalizeMapping(entries) {
        assert earlier[i].0 in NormalizeMapping(earlier);
      }
    }
  }

  /** An entry of a normal mapping is added as it is. */
  lemma NormalizeMappingNext(entries: seq<(string, set<string>)>, m: map<string, set<string>>)
    requires entries != [] && Last(entries).0 in m && m[Last(entries).0] == Last(entries).1 && NormalMapping(m)
    ensures NormalizeMapping(entries) == NormalizeMapping(entries[..|entries| - 1])[Last(entries).0 := Last(entries).1]
  {
    NormalIsFixed(Last(entries).1);
  }
}
