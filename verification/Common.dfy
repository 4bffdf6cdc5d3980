/** Types and sequence functions shared by the models of the other modules. */
module Common {

  datatype Option<+T> = None | Some(value: T)

  datatype Result<+T, +E> = Ok(value: T) | Err(error: E)

  /** Clock readings are integers in microseconds, the resolution of the source's datetimes. */
  const SECOND := 1_000_000

  function Last<T>(s: seq<T>): T
    requires s != []
  {
    s[|s| - 1]
  }

  function Reverse<T>(s: seq<T>): (r: seq<T>)
    ensures |r| == |s|
  {
    if s == [] then [] else [Last(s)] + Reverse(s[..|s| - 1])
  }

  lemma {:induction false} ReverseAt<T>(s: seq<T>, i: nat)
    requires i < |s|
    ensures Reverse(s)[i] == s[|s| - 1 - i]
  {
    if i > 0 {
      ReverseAt(s[..|s| - 1], i - 1);
    }
  }

  lemma ReverseSnoc<T>(s: seq<T>, x: T)
    ensures Reverse(s + [x]) == [x] + Reverse(s)
  {
    assert (s + [x])[..|s|] == s;
  }

  function ToSet<T(==)>(s: seq<T>): set<T> {
    set x | x in s
  }

  lemma ToSetConcat<T(!new)>(a: seq<T>, b: seq<T>)
    ensures ToSet(a + b) == ToSet(a) + ToSet(b)
  {
    forall x | x in a + b ensures x in a || x in b {
    }
    assert forall x :: x in ToSet(a + b) <==> x in ToSet(a) || x in ToSet(b);
  }

  /** The members of s that lie in keep, in order. */
  function Within<T(==)>(s: seq<T>, keep: set<T>): seq<T> {
    if s == [] then []
    else (if s[0] in keep then [s[0]] else []) + Within(s[1..], keep)
  }

  lemma WithinCons<T>(x: T, s: seq<T>, keep: set<T>)
    ensures Within([x] + s, keep) == (if x in keep then [x] else []) + Within(s, keep)
  {
    assert ([x] + s)[1..] == s;
  }

  lemma {:induction false} WithinLength<T>(s: seq<T>, keep: set<T>)
    ensures |Within(s, keep)| <= |s|
  {
    if s != [] {
      WithinLength(s[1..], keep);
    }
  }

  /** Filtering loses nothing exactly when every element is kept. */
  lemma {:induction false} WithinIsIdentity<T(!new)>(s: seq<T>, keep: set<T>)
    ensures Within(s, keep) == s <==> forall x :: x in s ==> x in keep
  {
    if s != [] {
      WithinIsIdentity(s[1..], keep);
      WithinLength(s[1..], keep);
      assert s == [s[0]] + s[1..];
      if s[0] in keep {
        assert Within(s, keep)[1..] == Within(s[1..], keep);
      }
    }
  }

  predicate Contains(text: string, fragment: string) {
    fragment <= text || (text != "" && Contains(text[1..], fragment))
  }

  lemma {:induction false} ContainsIff(text: string, fragment: string)
    ensures Contains(text, fragment) <==> exists before, after :: text == before + fragment + after
  {
    if fragment <= text {
      assert text == "" + fragment + text[|fragment|..];
    } else if text != "" {
      ContainsIff(text[1..], fragment);
      if before, after :| text[1..] == before + fragment + after {
        assert text == ([text[0]] + before) + fragment + after;
      }
      if before, after :| before != "" && text == before + fragment + after {
        assert text[1..] == before[1..] + fragment + after;
      }
    }
  }

  function CountTrue(marks: seq<bool>): nat {
    if marks == [] then 0 else CountTrue(marks[..|marks| - 1]) + if Last(marks) then 1 else 0
  }

  lemma {:induction false} CountTrueIs(marks: seq<bool>)
    ensures CountTrue(marks) == |set i | 0 <= i < |marks| && marks[i]|
  {
    if marks != [] {
      var n := |marks| - 1;
      CountTrueIs(marks[..n]);
      var earlier := set i | 0 <= i < n && marks[..n][i];
      assert (set i | 0 <= i < |marks| && marks[i]) == earlier + if marks[n] then {n} else {};
    }
  }
}
