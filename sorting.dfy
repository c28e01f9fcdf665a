/** A stable insertion sort over string-or-undefined keys. It stands for
    `Array.prototype.sort()` on a list of type names (lib.js:364, 426, 436)
    and for lodash `orderBy(inputs, "name")` (lib.js:394); both order strings
    by code unit and put `undefined` last, and both are stable. The model
    compares code points (`Text.StrLe`). */
module Sorting {
  import opened Wrappers
  import opened Text

  /** Adjacent elements are in order of their keys. */
  predicate SortedBy<T>(s: seq<T>, key: T -> Option<string>)
  {
    forall i :: 0 <= i < |s| - 1 ==> OptLe(key(s[i]), key(s[i + 1]))
  }

  /** Inserts `x` before the first element whose key is not smaller. */
  function Insert<T(==)>(x: T, s: seq<T>, key: T -> Option<string>): (r: seq<T>)
    ensures multiset(r) == multiset(s) + multiset{x}
    ensures |r| == |s| + 1
    ensures r[0] == x || (s != [] && r[0] == s[0])
    ensures SortedBy(s, key) ==> SortedBy(r, key)
  {
    if s == [] || OptLe(key(x), key(s[0])) then [x] + s
    else
      OptLeTotal(key(x), key(s[0]));
      var rest := Insert(x, s[1..], key);
      assert s == [s[0]] + s[1..];
      SortedCons(s[0], s[1..], key);
      SortedCons(s[0], rest, key);
      [s[0]] + rest
  }

  /** A list with a head is sorted when its tail is and the head comes first. */
  lemma SortedCons<T>(h: T, t: seq<T>, key: T -> Option<string>)
    ensures SortedBy([h] + t, key) <==> (t == [] || OptLe(key(h), key(t[0]))) && SortedBy(t, key)
  {
    var s := [h] + t;
    if SortedBy(t, key) && (t == [] || OptLe(key(h), key(t[0]))) {
      forall i | 0 <= i < |s| - 1 ensures OptLe(key(s[i]), key(s[i + 1])) {
        if i > 0 {
          assert s[i] == t[i - 1] && s[i + 1] == t[i];
        }
      }
    }
    if SortedBy(s, key) {
      if t != [] {
        assert s[0] == h && s[1] == t[0];
      }
      forall i | 0 <= i < |t| - 1 ensures OptLe(key(t[i]), key(t[i + 1])) {
        assert s[i + 1] == t[i] && s[i + 2] == t[i + 1];
      }
    }
  }

  /** The list sorted by key: a sorted permutation of `s`. */
  function SortBy<T(==)>(s: seq<T>, key: T -> Option<string>): (r: seq<T>)
    ensures multiset(r) == multiset(s)
    ensures |r| == |s|
    ensures SortedBy(r, key)
  {
    if s == [] then []
    else
      assert s == [s[0]] + s[1..];
      Insert(s[0], SortBy(s[1..], key), key)
  }

  /** The elements of `s` whose key is `k`, in order. */
  function WithKey<T>(s: seq<T>, key: T -> Option<string>, k: Option<string>): seq<T>
  {
    if s == [] then []
    else (if key(s[0]) == k then [s[0]] else []) + WithKey(s[1..], key, k)
  }

  lemma WithKeyCons<T>(h: T, t: seq<T>, key: T -> Option<string>, k: Option<string>)
    ensures WithKey([h] + t, key, k) == (if key(h) == k then [h] else []) + WithKey(t, key, k)
  {
    assert ([h] + t)[1..] == t;
  }

  lemma InsertAfterHead<T>(x: T, s: seq<T>, key: T -> Option<string>)
    requires s != [] && !OptLe(key(x), key(s[0]))
    ensures Insert(x, s, key) == [s[0]] + Insert(x, s[1..], key)
    ensures key(s[0]) != key(x)
  {
    OptLeReflexive(key(x));
  }

  lemma SwapEmpty<T>(a: seq<T>, b: seq<T>, w: seq<T>)
    requires a == [] || b == []
    ensures a + (b + w) == b + (a + w)
  {
    if a == [] {
      assert a + (b + w) == b + w == b + (a + w);
    } else {
      assert a + (b + w) == a + w == b + (a + w);
    }
  }

  lemma {:induction false} InsertStable<T>(x: T, s: seq<T>, key: T -> Option<string>, k: Option<string>)
    ensures WithKey(Insert(x, s, key), key, k) == WithKey([x] + s, key, k)
  {
    if s == [] || OptLe(key(x), key(s[0])) {
    } else {
      assert s == [s[0]] + s[1..];
      var rest := Insert(x, s[1..], key);
      InsertAfterHead(x, s, key);
      var ex := if key(x) == k then [x] else [];
      var e0 := if key(s[0]) == k then [s[0]] else [];
      var w := WithKey(s[1..], key, k);
      InsertStable(x, s[1..], key, k);
      WithKeyCons(s[0], rest, key, k);
      WithKeyCons(x, s[1..], key, k);
      WithKeyCons(s[0], s[1..], key, k);
      WithKeyCons(x, s, key, k);
      SwapEmpty(e0, ex, w);
    }
  }

  /** The sort is stable: elements with equal keys keep their relative order. */
  lemma {:induction false} SortByStable<T>(s: seq<T>, key: T -> Option<string>, k: Option<string>)
    ensures WithKey(SortBy(s, key), key, k) == WithKey(s, key, k)
  {
    if s != [] {
      SortByStable(s[1..], key, k);
      InsertStable(s[0], SortBy(s[1..], key), key, k);
      assert ([s[0]] + SortBy(s[1..], key))[1..] == SortBy(s[1..], key);
    }
  }

  /** Sorting a list that is already sorted changes nothing. */
  lemma {:induction false} SortBySorted<T>(s: seq<T>, key: T -> Option<string>)
    requires SortedBy(s, key)
    ensures SortBy(s, key) == s
  {
    if s != [] {
      SortBySorted(s[1..], key);
      assert s == [s[0]] + s[1..];
    }
  }

  function Id(x: Option<string>): Option<string> { x }

  lemma SortedFirstIsLeast(a: seq<Option<string>>, i: nat)
    requires SortedBy(a, Id) && i < |a|
    ensures OptLe(a[0], a[i])
  {
    if i == 0 {
      OptLeReflexive(a[0]);
    } else {
      SortedFirstIsLeast(a, i - 1);
      OptLeTransitive(a[0], a[i - 1], a[i]);
    }
  }

  lemma MultisetTail(a: seq<Option<string>>)
    requires a != []
    ensures multiset(a[1..]) == multiset(a) - multiset{a[0]}
    ensures a[0] in multiset(a)
  {
    assert a == [a[0]] + a[1..];
  }

  lemma MemberIndex(a: seq<Option<string>>, x: Option<string>) returns (i: nat)
    requires x in multiset(a)
    ensures i < |a| && a[i] == x
  {
    assert x in a;
    i :| 0 <= i < |a| && a[i] == x;
  }

  /** A sorted arrangement of a multiset of names is unique. */
  lemma {:induction false} SortedUnique(a: seq<Option<string>>, b: seq<Option<string>>)
    requires SortedBy(a, Id) && SortedBy(b, Id) && multiset(a) == multiset(b)
    ensures a == b
  {
    if a == [] {
      assert |b| == |multiset(b)|;
    } else {
      SortedHeads(a, b);
      SortedUnique(a[1..], b[1..]);
      assert a == [a[0]] + a[1..] && b == [b[0]] + b[1..];
    }
  }

  /** Two sorted arrangements of one multiset start with the same name. */
  lemma SortedHeads(a: seq<Option<string>>, b: seq<Option<string>>)
    requires SortedBy(a, Id) && SortedBy(b, Id) && multiset(a) == multiset(b)
    requires a != []
    ensures b != [] && a[0] == b[0]
    ensures SortedBy(a[1..], Id) && SortedBy(b[1..], Id)
    ensures multiset(a[1..]) == multiset(b[1..])
  {
    MultisetTail(a);
    assert |b| == |multiset(b)|;
    MultisetTail(b);
    var i := MemberIndex(b, a[0]);
    var j := MemberIndex(a, b[0]);
    SortedFirstIsLeast(a, j);
    SortedFirstIsLeast(b, i);
    OptLeAntisymmetric(a[0], b[0]);
    assert a == [a[0]] + a[1..] && b == [b[0]] + b[1..];
    SortedCons(a[0], a[1..], Id);
    SortedCons(b[0], b[1..], Id);
  }
}
