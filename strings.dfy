/** String helpers the completion engine calls. Case mapping is ASCII only:
    it stands in for toLowerCase/toUpperCase. `Normalize` is what the
    "...WithoutSpace" comparisons apply to both sides: every ' ' removed,
    then lower-cased. */
module Strings {
  import opened Collections

  function LowerChar(c: char): char
  {
    if 'A' <= c <= 'Z' then (c as int + 32) as char else c
  }

  function UpperChar(c: char): char
  {
    if 'a' <= c <= 'z' then (c as int - 32) as char else c
  }

  lemma LowerOfUpper(c: char)
    ensures LowerChar(UpperChar(c)) == LowerChar(c)
    ensures UpperChar(c) == ' ' <==> c == ' '
  {
  }

  function Lower(s: string): (r: string)
    ensures |r| == |s| && forall i :: 0 <= i < |s| ==> r[i] == LowerChar(s[i])
  {
    seq(|s|, i requires 0 <= i < |s| => LowerChar(s[i]))
  }

  function Upper(s: string): (r: string)
    ensures |r| == |s| && forall i :: 0 <= i < |s| ==> r[i] == UpperChar(s[i])
  {
    seq(|s|, i requires 0 <= i < |s| => UpperChar(s[i]))
  }

  /** capitalizeFirstLetter: the first character upper-cased, the rest kept. */
  function CapitalizeFirstLetter(s: string): (r: string)
    ensures |r| == |s|
    ensures |s| > 0 ==> r[0] == UpperChar(s[0]) && r[1..] == s[1..]
  {
    if |s| == 0 then "" else [UpperChar(s[0])] + s[1..]
  }

  /** `s` with every ' ' removed and the rest lower-cased. */
  function Normalize(s: string): (r: string)
    ensures |r| <= |s|
    ensures ' ' !in r
  {
    if |s| == 0 then ""
    else (if s[0] == ' ' then "" else [LowerChar(s[0])]) + Normalize(s[1..])
  }

  predicate StartsWith(s: string, prefix: string)
  {
    |prefix| <= |s| && s[..|prefix|] == prefix
  }

  predicate EndsWith(s: string, suffix: string)
  {
    |suffix| <= |s| && s[|s| - |suffix|..] == suffix
  }

  predicate OccursAt(s: string, p: string, i: nat)
  {
    i + |p| <= |s| && s[i..i + |p|] == p
  }

  function IndexOfFrom(s: string, p: string, from: nat): (r: Option<nat>)
    ensures r.Some? ==> from <= r.value && OccursAt(s, p, r.value)
    ensures r.Some? ==> forall j :: from <= j < r.value ==> !OccursAt(s, p, j)
    ensures r.None? ==> forall j :: from <= j ==> !OccursAt(s, p, j)
    decreases |s| - from
  {
    if from + |p| > |s| then None
    else if OccursAt(s, p, from) then Some(from)
    else IndexOfFrom(s, p, from + 1)
  }

  /** String.prototype.indexOf, with -1 as None. */
  function IndexOf(s: string, p: string): (r: Option<nat>)
    ensures r.Some? ==> OccursAt(s, p, r.value) && forall j :: 0 <= j < r.value ==> !OccursAt(s, p, j)
    ensures r.None? ==> forall j :: !OccursAt(s, p, j)
  {
    IndexOfFrom(s, p, 0)
  }

  predicate Includes(s: string, p: string)
  {
    IndexOf(s, p).Some?
  }

  /** String.prototype.replace(p, ""): removes the first occurrence of `p`. */
  function RemoveFirst(s: string, p: string): (r: string)
    ensures IndexOf(s, p).None? ==> r == s
    ensures IndexOf(s, p).Some? ==> var i := IndexOf(s, p).value;
              |r| == |s| - |p| && r == s[..i] + s[i + |p|..] && r[..i] == s[..i] && r[i..] == s[i + |p|..]
  {
    match IndexOf(s, p)
    case None => s
    case Some(i) =>
      var r := s[..i] + s[i + |p|..];
      assert r[..i] == s[..i] && r[i..] == s[i + |p|..];
      r
  }

  /** text.split(" ").last(): what follows the last space of `s`. */
  function LastFragment(s: string): (r: string)
    ensures ' ' !in r
    ensures |r| <= |s| && r == s[|s| - |r|..]
    ensures |r| < |s| ==> s[|s| - |r| - 1] == ' '
  {
    if |s| == 0 then ""
    else if s[|s| - 1] == ' ' then ""
    else LastFragment(s[..|s| - 1]) + [s[|s| - 1]]
  }

  /** lowerStartsWithoutSpace */
  predicate LowerStartsWithoutSpace(one: string, other: string)
  {
    StartsWith(Normalize(one), Normalize(other))
  }

  /** lowerIncludesWithoutSpace */
  predicate LowerIncludesWithoutSpace(one: string, other: string)
  {
    Includes(Normalize(one), Normalize(other))
  }

  /** Capitalising changes only case, so it does not change a match. */
  lemma NormalizeCapitalized(s: string)
    ensures Normalize(CapitalizeFirstLetter(s)) == Normalize(s)
  {
    if |s| > 0 {
      var c := CapitalizeFirstLetter(s);
      LowerOfUpper(s[0]);
      assert c[1..] == s[1..];
    }
  }

  /** A word of lower-case ASCII letters is its own normal form. */
  lemma {:induction false} NormalizeLowerWord(s: string)
    requires forall c :: c in s ==> 'a' <= c <= 'z'
    ensures Normalize(s) == s
  {
    if |s| > 0 {
      assert s[0] in s;
      assert forall c :: c in s[1..] ==> c in s;
      NormalizeLowerWord(s[1..]);
      assert s == [s[0]] + s[1..];
    }
  }

  /** A prefix is also a substring. */
  lemma StartsWithIncludes(s: string, p: string)
    requires StartsWith(s, p)
    ensures Includes(s, p)
  {
    assert OccursAt(s, p, 0);
  }

  /** Every string includes the empty string. */
  lemma IncludesEmpty(s: string)
    ensures Includes(s, "")
  {
    assert OccursAt(s, "", 0);
  }
}
