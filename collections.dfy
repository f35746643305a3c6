/** Sequence helpers the completion engine relies on: an optional value, the
    first element satisfying a predicate (Array.prototype.find), flattening,
    slicing a prefix (slice(0, n)) and removal of duplicates that keeps the
    first occurrence (uniqWith). */
module Collections {

  datatype Option<T> = None | Some(value: T)

  /** Index of the first element of `s` that satisfies `p`. */
  function FindIndex<T>(s: seq<T>, p: T -> bool): (r: Option<nat>)
    ensures r.Some? ==> r.value < |s| && p(s[r.value])
    ensures r.Some? ==> forall j :: 0 <= j < r.value ==> !p(s[j])
    ensures r.None? ==> forall j :: 0 <= j < |s| ==> !p(s[j])
  {
    if |s| == 0 then None
    else if p(s[0]) then Some(0)
    else match FindIndex(s[1..], p)
      case None => None
      case Some(i) => Some(i + 1)
  }

  /** Array.prototype.find: the first element satisfying `p`, if any. */
  function Find<T>(s: seq<T>, p: T -> bool): (r: Option<T>)
    ensures r.None? <==> forall j :: 0 <= j < |s| ==> !p(s[j])
    ensures r.Some? ==> exists i :: 0 <= i < |s| && s[i] == r.value && p(s[i]) &&
                                     forall j :: 0 <= j < i ==> !p(s[j])
  {
    match FindIndex(s, p)
    case None => None
    case Some(i) => Some(s[i])
  }

  /** Array.prototype.flat on an array of arrays. */
  function Flatten<T>(ss: seq<seq<T>>): (r: seq<T>)
  {
    if |ss| == 0 then [] else ss[0] + Flatten(ss[1..])
  }

  lemma {:induction false} FlattenMember<T>(ss: seq<seq<T>>, x: T)
    requires x in Flatten(ss)
    ensures exists i :: 0 <= i < |ss| && x in ss[i]
  {
    if x !in ss[0] {
      FlattenMember(ss[1..], x);
      var i :| 0 <= i < |ss[1..]| && x in ss[1..][i];
      assert x in ss[i + 1];
    }
  }

  lemma {:induction false} FlattenContains<T>(ss: seq<seq<T>>, i: nat, x: T)
    requires i < |ss| && x in ss[i]
    ensures x in Flatten(ss)
  {
    if i > 0 {
      FlattenContains(ss[1..], i - 1, x);
    }
  }

  /** Array.prototype.slice(0, n) for a non-negative n. */
  function Take<T>(s: seq<T>, n: nat): (r: seq<T>)
    ensures |r| <= n && |r| <= |s|
    ensures r == s[..|r|]
    ensures n <= |s| ==> |r| == n
    ensures n >= |s| ==> r == s
  {
    if n < |s| then s[..n] else s
  }

  /** The set of keys of the elements of `s`. */
  function KeysOf<T, K>(s: seq<T>, key: T -> K): set<K>
  {
    set i | 0 <= i < |s| :: key(s[i])
  }

  /** No two elements of `s` share a key. */
  predicate NoDuplicateKeys<T, K(==)>(s: seq<T>, key: T -> K)
  {
    forall i, j :: 0 <= i < j < |s| ==> key(s[i]) != key(s[j])
  }

  lemma KeysOfAppend<T, K>(s: seq<T>, key: T -> K, x: T)
    ensures KeysOf(s + [x], key) == KeysOf(s, key) + {key(x)}
  {
    var t := s + [x];
    forall y | y in KeysOf(t, key) ensures y in KeysOf(s, key) + {key(x)} {
      var i :| 0 <= i < |t| && key(t[i]) == y;
      if i < |s| { assert t[i] == s[i]; }
    }
    forall y | y in KeysOf(s, key) + {key(x)} ensures y in KeysOf(t, key) {
      if y == key(x) { assert t[|s|] == x; }
      else { var i :| 0 <= i < |s| && key(s[i]) == y; assert t[i] == s[i]; }
    }
  }

  /** Without duplicate keys there are as many keys as elements. */
  lemma {:induction false} DistinctKeysCount<T, K>(s: seq<T>, key: T -> K)
    requires NoDuplicateKeys(s, key)
    ensures |KeysOf(s, key)| == |s|
  {
    if |s| > 0 {
      var init := s[..|s| - 1];
      var last := s[|s| - 1];
      assert init + [last] == s;
      DistinctKeysCount(init, key);
      KeysOfAppend(init, key, last);
      forall i | 0 <= i < |init| ensures key(init[i]) != key(last) {
        assert init[i] == s[i];
      }
    }
  }

  /** The predicate "has key `k`", as the comparator uniqWith is given. */
  function KeyIs<T, K(==)>(key: T -> K, k: K): T -> bool
  {
    x => key(x) == k
  }

  /** Index of the first element of `s` with key `k`; |s| when there is none
      (findIndex's -1). */
  function FirstKeyIndex<T, K(==)>(s: seq<T>, key: T -> K, k: K): (i: nat)
    ensures i <= |s|
    ensures i < |s| ==> key(s[i]) == k
    ensures forall j :: 0 <= j < i ==> key(s[j]) != k
  {
    match FindIndex(s, KeyIs(key, k))
    case None => |s|
    case Some(i) => i
  }

  /** The first index is determined by the keys up to it. */
  lemma FirstKeyIndexUnique<T, K>(s: seq<T>, key: T -> K, k: K, i: nat)
    requires i <= |s| && (i < |s| ==> key(s[i]) == k)
    requires forall j :: 0 <= j < i ==> key(s[j]) != k
    ensures FirstKeyIndex(s, key, k) == i
  {
  }

  /** A key of `s` has its first index inside `s`. */
  lemma FirstKeyIndexOfKey<T, K>(s: seq<T>, key: T -> K, j: nat)
    requires j < |s|
    ensures FirstKeyIndex(s, key, key(s[j])) <= j
  {
  }

  /** Appending an element changes no first index found before it. */
  lemma FirstKeyIndexAppend<T, K>(p: seq<T>, x: T, key: T -> K, k: K)
    ensures FirstKeyIndex(p, key, k) < |p| ==> FirstKeyIndex(p + [x], key, k) == FirstKeyIndex(p, key, k)
    ensures FirstKeyIndex(p, key, k) == |p| && key(x) == k ==> FirstKeyIndex(p + [x], key, k) == |p|
  {
    var s := p + [x];
    var i := FirstKeyIndex(p, key, k);
    assert forall j :: 0 <= j < |p| ==> s[j] == p[j];
    if i < |p| || key(x) == k {
      FirstKeyIndexUnique(s, key, k, i);
    }
  }

  /** `r` lists, in the order of their first occurrences in `s`, the first
      element of `s` of each of its keys. */
  predicate FirstOccurrences<T(==), K(==)>(r: seq<T>, s: seq<T>, key: T -> K)
  {
    (forall m :: 0 <= m < |r| ==>
       FirstKeyIndex(s, key, key(r[m])) < |s| && r[m] == s[FirstKeyIndex(s, key, key(r[m]))]) &&
    (forall m, n :: 0 <= m < n < |r| ==> FirstKeyIndex(s, key, key(r[m])) < FirstKeyIndex(s, key, key(r[n])))
  }

  /** One step of uniqWith: an element with a new key is kept at the end,
      one with a known key is dropped. */
  lemma FirstOccurrencesStep<T, K>(r: seq<T>, p: seq<T>, x: T, key: T -> K)
    requires FirstOccurrences(r, p, key) && KeysOf(r, key) == KeysOf(p, key)
    ensures key(x) in KeysOf(r, key) ==> FirstOccurrences(r, p + [x], key)
    ensures key(x) !in KeysOf(r, key) ==> FirstOccurrences(r + [x], p + [x], key)
  {
    var s := p + [x];
    forall m | 0 <= m < |r|
      ensures FirstKeyIndex(s, key, key(r[m])) == FirstKeyIndex(p, key, key(r[m])) < |p|
    {
      FirstKeyIndexAppend(p, x, key, key(r[m]));
    }
    if key(x) !in KeysOf(r, key) {
      var t := r + [x];
      forall j | 0 <= j < |p| ensures key(p[j]) != key(x) {
        assert key(p[j]) in KeysOf(p, key);
      }
      FirstKeyIndexUnique(p, key, key(x), |p|);
      FirstKeyIndexAppend(p, x, key, key(x));
      assert forall m :: 0 <= m < |r| ==> t[m] == r[m];
    }
  }

  /** A first segment of a first-occurrence list, and no key it leaves out
      occurs in `s` before the last key it keeps. */
  predicate FirstDistinct<T(==), K(==)>(r: seq<T>, s: seq<T>, key: T -> K)
  {
    FirstOccurrences(r, s, key) &&
    forall j, m :: 0 <= j < |s| && 0 <= m < |r| && key(s[j]) !in KeysOf(r, key) ==>
      FirstKeyIndex(s, key, key(r[m])) < j
  }

  function Reverse<T>(s: seq<T>): (r: seq<T>)
    ensures |r| == |s| && forall i :: 0 <= i < |s| ==> r[i] == s[|s| - 1 - i]
  {
    seq(|s|, i requires 0 <= i < |s| => s[|s| - 1 - i])
  }

  /** `r` is `s` with some elements deleted, order kept. */
  predicate IsSubsequence<T(==)>(r: seq<T>, s: seq<T>)
    decreases |s|
  {
    |r| == 0 ||
    (|s| > 0 &&
     if r[|r| - 1] == s[|s| - 1] then IsSubsequence(r[..|r| - 1], s[..|s| - 1])
     else IsSubsequence(r, s[..|s| - 1]))
  }

  lemma {:induction false} SubsequenceExtend<T>(r: seq<T>, s: seq<T>, x: T)
    requires IsSubsequence(r, s)
    ensures IsSubsequence(r, s + [x])
    decreases |s|, 1
  {
    var s' := s + [x];
    assert s'[..|s'| - 1] == s;
    if |r| > 0 && r[|r| - 1] == x {
      SubsequenceDropLast(r, s);
    }
  }

  lemma {:induction false} SubsequenceDropLast<T>(r: seq<T>, s: seq<T>)
    requires |r| > 0 && IsSubsequence(r, s)
    ensures IsSubsequence(r[..|r| - 1], s)
    decreases |s|, 0
  {
    var init := s[..|s| - 1];
    assert s == init + [s[|s| - 1]];
    if r[|r| - 1] == s[|s| - 1] {
      SubsequenceExtend(r[..|r| - 1], init, s[|s| - 1]);
    } else {
      SubsequenceDropLast(r, init);
      SubsequenceExtend(r[..|r| - 1], init, s[|s| - 1]);
    }
  }

  lemma {:induction false} SubsequenceMembers<T>(r: seq<T>, s: seq<T>)
    requires IsSubsequence(r, s)
    ensures forall x :: x in r ==> x in s
    decreases |s|
  {
    if |r| > 0 {
      var init := s[..|s| - 1];
      if r[|r| - 1] == s[|s| - 1] {
        SubsequenceMembers(r[..|r| - 1], init);
        assert r == r[..|r| - 1] + [s[|s| - 1]];
      } else {
        SubsequenceMembers(r, init);
      }
    }
  }

  /** uniqWith(s, (a, b) => key(a) == key(b)): keeps the first element of
      every class of elements that share a key, in their original order. */
  function UniqBy<T(==), K(==)>(s: seq<T>, key: T -> K): (r: seq<T>)
    ensures UniqOf(r, s, key)
    decreases |s|
  {
    if |s| == 0 then []
    else
      var init := UniqBy(s[..|s| - 1], key);
      var last := s[|s| - 1];
      UniqByStep(init, s, key);
      if key(last) in KeysOf(init, key) then init else init + [last]
  }

  /** The guarantees UniqBy makes of its result, as one predicate. */
  predicate UniqOf<T(==), K(==)>(r: seq<T>, s: seq<T>, key: T -> K)
  {
    |r| <= |s| && NoDuplicateKeys(r, key) && KeysOf(r, key) == KeysOf(s, key) &&
    IsSubsequence(r, s) && FirstOccurrences(r, s, key)
  }

  /** One step of UniqBy: its guarantees carry over to one more element. */
  lemma UniqByStep<T, K>(r: seq<T>, s: seq<T>, key: T -> K)
    requires |s| > 0 && UniqOf(r, s[..|s| - 1], key)
    ensures key(s[|s| - 1]) in KeysOf(r, key) ==> UniqOf(r, s, key)
    ensures key(s[|s| - 1]) !in KeysOf(r, key) ==> UniqOf(r + [s[|s| - 1]], s, key)
  {
    var p, x := s[..|s| - 1], s[|s| - 1];
    assert p + [x] == s;
    KeysOfAppend(p, key, x);
    SubsequenceExtend(r, p, x);
    FirstOccurrencesStep(r, p, x, key);
    if key(x) !in KeysOf(r, key) {
      KeysOfAppend(r, key, x);
      var t := r + [x];
      forall m | 0 <= m < |r| ensures key(t[m]) != key(x) {
        assert key(r[m]) in KeysOf(r, key);
      }
    }
  }

  /** The elements of `s` at strictly increasing indices form a subsequence. */
  lemma {:induction false} SubsequenceAtIndices<T>(r: seq<T>, s: seq<T>, ks: seq<nat>)
    requires |r| == |ks|
    requires forall m :: 0 <= m < |ks| ==> ks[m] < |s| && r[m] == s[ks[m]]
    requires forall m, n :: 0 <= m < n < |ks| ==> ks[m] < ks[n]
    ensures IsSubsequence(r, s)
    decreases |s|
  {
    if |r| > 0 {
      assert ks[|ks| - 1] < |s|;
      var init := s[..|s| - 1];
      if ks[|ks| - 1] == |s| - 1 {
        SubsequenceAtIndices(r[..|r| - 1], init, ks[..|ks| - 1]);
      } else {
        SubsequenceAtIndices(r, init, ks);
        SubsequenceExtend(r, init, s[|s| - 1]);
        assert init + [s[|s| - 1]] == s;
      }
    }
  }

  /** A common first element keeps the subsequence relation, and so does an
      extra first element of the longer sequence alone. */
  lemma {:induction false} SubsequenceCons<T>(r: seq<T>, s: seq<T>, x: T)
    requires IsSubsequence(r, s)
    ensures IsSubsequence(r, [x] + s) && IsSubsequence([x] + r, [x] + s)
    decreases |s|
  {
    var xs, xr := [x] + s, [x] + r;
    if |s| == 0 {
      assert xs[..0] == [] && xr[..0] == [];
    } else {
      var init := s[..|s| - 1];
      assert xs[..|xs| - 1] == [x] + init;
      if |r| == 0 {
        SubsequenceCons(r, init, x);
        assert xr == [x] && xr[..0] == [];
      } else {
        var front := r[..|r| - 1];
        assert xr[..|xr| - 1] == [x] + front;
        if r[|r| - 1] == s[|s| - 1] {
          SubsequenceCons(front, init, x);
        } else {
          SubsequenceCons(r, init, x);
        }
      }
    }
  }

  /** A first segment of a subsequence is a subsequence. */
  lemma {:induction false} SubsequencePrefix<T>(r: seq<T>, s: seq<T>, t: nat)
    requires t <= |r| && IsSubsequence(r, s)
    ensures IsSubsequence(r[..t], s)
    decreases |r| - t
  {
    if t < |r| {
      SubsequenceDropLast(r, s);
      SubsequencePrefix(r[..|r| - 1], s, t);
      assert r[..|r| - 1][..t] == r[..t];
    } else {
      assert r[..t] == r;
    }
  }

  /** uniqWith followed by slice(0, n): the first n distinct elements of `s`,
      in order, each the first of its key. */
  lemma UniqByThenTake<T, K>(s: seq<T>, key: T -> K, n: nat)
    ensures IsSubsequence(Take(UniqBy(s, key), n), s)
    ensures FirstDistinct(Take(UniqBy(s, key), n), s, key)
  {
    var u := UniqBy(s, key);
    SubsequencePrefix(u, s, |Take(u, n)|);
    FirstOccurrencesPrefix(u, s, key, |Take(u, n)|);
  }

  lemma FirstOccurrencesPrefix<T, K>(u: seq<T>, s: seq<T>, key: T -> K, t: nat)
    requires t <= |u| && FirstOccurrences(u, s, key) && KeysOf(u, key) == KeysOf(s, key)
    ensures FirstDistinct(u[..t], s, key)
  {
    var r := u[..t];
    assert forall i :: 0 <= i < t ==> r[i] == u[i];
    assert FirstOccurrences(r, s, key);
    forall j, m | 0 <= j < |s| && 0 <= m < t && key(s[j]) !in KeysOf(r, key)
      ensures FirstKeyIndex(s, key, key(r[m])) < j
    {
      assert key(s[j]) in KeysOf(u, key);
      var k :| 0 <= k < |u| && key(u[k]) == key(s[j]);
      LaterKey(u, t, k, key, KeysOf(r, key));
      FirstKeyIndexOfKey(s, key, j);
    }
  }

  /** A key of `u` absent from its first `t` elements sits at or after `t`. */
  lemma LaterKey<T, K>(u: seq<T>, t: nat, k: nat, key: T -> K, keys: set<K>)
    requires t <= |u| && k < |u| && keys == KeysOf(u[..t], key) && key(u[k]) !in keys
    ensures t <= k
  {
    forall i | 0 <= i < t ensures key(u[i]) in keys {
      assert u[..t][i] == u[i];
    }
  }

  /** Every element UniqBy keeps is the first element of `s` with its key. */
  lemma UniqByKeepsFirst<T, K>(s: seq<T>, key: T -> K, i: nat, k: nat)
    requires i < |UniqBy(s, key)| && k < |s|
    requires key(s[k]) == key(UniqBy(s, key)[i])
    ensures exists j :: 0 <= j <= k && s[j] == UniqBy(s, key)[i]
  {
    var r := UniqBy(s, key);
    FirstKeyIndexOfKey(s, key, k);
    var j := FirstKeyIndex(s, key, key(r[i]));
    assert s[j] == r[i];
  }
}
