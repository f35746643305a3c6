/** A stable sort by a lexicographic key. Array.prototype.sort is stable
    (ECMAScript 2019), so sorting with a comparator that orders elements by
    a key keeps elements with equal keys in their original order. The
    insertion sort here is that sort, and its lemmas say so: the result is
    sorted, is a permutation of the input, and lists the elements of every
    key in their input order. */
module StableSort {

  /** Four discriminators compared in order: the first that differs decides. */
  datatype Key = Key(k0: nat, k1: nat, k2: nat, k3: nat)

  predicate KeyLe(a: Key, b: Key)
  {
    a.k0 < b.k0 || (a.k0 == b.k0 &&
    (a.k1 < b.k1 || (a.k1 == b.k1 &&
    (a.k2 < b.k2 || (a.k2 == b.k2 && a.k3 <= b.k3)))))
  }

  /** The three-way comparison a consistent comparator returns for two keys. */
  function KeyCompare(a: Key, b: Key): (r: int)
    ensures r == 0 <==> a == b
    ensures r < 0 <==> KeyLe(a, b) && a != b
    ensures r > 0 <==> KeyLe(b, a) && a != b
  {
    if a == b then 0 else if KeyLe(a, b) then -1 else 1
  }

  /** Swapping the arguments negates the comparison. */
  lemma KeyCompareAntisymmetric(a: Key, b: Key)
    ensures KeyCompare(a, b) == -KeyCompare(b, a)
  {
  }

  lemma KeyLeTotalOrder(a: Key, b: Key, c: Key)
    ensures KeyLe(a, a)
    ensures KeyLe(a, b) || KeyLe(b, a)
    ensures KeyLe(a, b) && KeyLe(b, a) ==> a == b
    ensures KeyLe(a, b) && KeyLe(b, c) ==> KeyLe(a, c)
  {
  }

  /** Places `x` before the first element whose key is not smaller. */
  function Insert<T>(x: T, s: seq<T>, key: T -> Key): (r: seq<T>)
    ensures |r| == |s| + 1
  {
    if |s| == 0 then [x]
    else if KeyLe(key(x), key(s[0])) then [x] + s
    else [s[0]] + Insert(x, s[1..], key)
  }

  function SortBy<T>(s: seq<T>, key: T -> Key): (r: seq<T>)
    ensures |r| == |s|
  {
    if |s| == 0 then [] else Insert(s[0], SortBy(s[1..], key), key)
  }

  predicate Sorted<T>(s: seq<T>, key: T -> Key)
  {
    forall i, j :: 0 <= i < j < |s| ==> KeyLe(key(s[i]), key(s[j]))
  }

  /** The elements of `s` whose key is `k`, in order. */
  function WithKey<T>(s: seq<T>, key: T -> Key, k: Key): seq<T>
  {
    if |s| == 0 then []
    else (if key(s[0]) == k then [s[0]] else []) + WithKey(s[1..], key, k)
  }

  lemma {:induction false} InsertSorted<T>(x: T, s: seq<T>, key: T -> Key)
    requires Sorted(s, key)
    ensures Sorted(Insert(x, s, key), key)
    ensures multiset(Insert(x, s, key)) == multiset(s) + multiset{x}
  {
    if |s| > 0 {
      if KeyLe(key(x), key(s[0])) {
        var r := [x] + s;
        forall i, j | 0 <= i < j < |r| ensures KeyLe(key(r[i]), key(r[j])) {
          if i == 0 { KeyLeTotalOrder(key(x), key(s[0]), key(r[j])); }
        }
      } else {
        InsertSorted(x, s[1..], key);
        var t := Insert(x, s[1..], key);
        var r := [s[0]] + t;
        assert s == [s[0]] + s[1..];
        forall j | 0 <= j < |t| ensures KeyLe(key(s[0]), key(t[j])) {
          assert t[j] in multiset(t);
          if t[j] == x {
            KeyLeTotalOrder(key(x), key(s[0]), key(s[0]));
          } else {
            assert t[j] in multiset(s[1..]);
            var m :| 0 <= m < |s[1..]| && s[1..][m] == t[j];
            assert s[m + 1] == t[j];
          }
        }
        forall i, j | 0 <= i < j < |r| ensures KeyLe(key(r[i]), key(r[j])) {
          if i == 0 { assert r[j] == t[j - 1]; }
        }
      }
    }
  }

  lemma {:induction false} WithKeyAppend<T>(a: seq<T>, b: seq<T>, key: T -> Key, k: Key)
    ensures WithKey(a + b, key, k) == WithKey(a, key, k) + WithKey(b, key, k)
  {
    if |a| > 0 {
      assert (a + b)[0] == a[0];
      assert (a + b)[1..] == a[1..] + b;
      WithKeyAppend(a[1..], b, key, k);
    } else {
      assert a + b == b;
    }
  }

  /** Inserting `x` puts it in front of every element that shares its key. */
  lemma {:induction false} InsertWithKey<T>(x: T, s: seq<T>, key: T -> Key, k: Key)
    ensures WithKey(Insert(x, s, key), key, k) ==
            (if key(x) == k then [x] else []) + WithKey(s, key, k)
  {
    var head := if key(x) == k then [x] else [];
    if |s| == 0 {
      assert WithKey([x], key, k) == head + WithKey([x][1..], key, k);
    } else if KeyLe(key(x), key(s[0])) {
      WithKeyAppend([x], s, key, k);
      assert WithKey([x], key, k) == head + WithKey([x][1..], key, k);
    } else {
      InsertWithKey(x, s[1..], key, k);
      InsertPastHead(x, s, key, k);
    }
  }

  /** One step of InsertWithKey: `x` goes past a head with a smaller key. */
  lemma InsertPastHead<T>(x: T, s: seq<T>, key: T -> Key, k: Key)
    requires |s| > 0 && !KeyLe(key(x), key(s[0]))
    requires WithKey(Insert(x, s[1..], key), key, k) == (if key(x) == k then [x] else []) + WithKey(s[1..], key, k)
    ensures WithKey(Insert(x, s, key), key, k) == (if key(x) == k then [x] else []) + WithKey(s, key, k)
  {
    var t := Insert(x, s[1..], key);
    assert Insert(x, s, key) == [s[0]] + t;
    var first := if key(s[0]) == k then [s[0]] else [];
    assert WithKey(Insert(x, s, key), key, k) == first + WithKey(t, key, k) by {
      assert ([s[0]] + t)[0] == s[0] && ([s[0]] + t)[1..] == t;
    }
    assert WithKey(s, key, k) == first + WithKey(s[1..], key, k);
    KeyLeTotalOrder(key(x), key(s[0]), key(s[0]));
    assert key(x) == k ==> first == [];
  }

  /** The sort's result is ordered by key and is a permutation of its input. */
  lemma {:induction false} SortBySortedPermutation<T>(s: seq<T>, key: T -> Key)
    ensures Sorted(SortBy(s, key), key)
    ensures multiset(SortBy(s, key)) == multiset(s)
  {
    if |s| > 0 {
      SortBySortedPermutation(s[1..], key);
      InsertSorted(s[0], SortBy(s[1..], key), key);
      assert s == [s[0]] + s[1..];
    }
  }

  /** The sort is stable: the elements of each key keep their input order. */
  lemma {:induction false} SortByStable<T>(s: seq<T>, key: T -> Key, k: Key)
    ensures WithKey(SortBy(s, key), key, k) == WithKey(s, key, k)
  {
    if |s| > 0 {
      SortByStable(s[1..], key, k);
      InsertWithKey(s[0], SortBy(s[1..], key), key, k);
    }
  }
}
