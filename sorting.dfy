/**
 * Python's `sorted(xs, key=..., reverse=...)`: a stable sort by a key.
 * The order on keys is passed as a strict "comes before" relation `lt`;
 * for `reverse=True` the caller passes the flipped relation, which keeps
 * Python's guarantee that equal keys stay in input order.
 */
module Sorting {
  import opened Common

  /** `lt` is irreflexive and transitive. */
  ghost predicate StrictOrder<K(!new)>(lt: (K, K) -> bool) {
    (forall a :: !lt(a, a)) && (forall a, b, c :: lt(a, b) && lt(b, c) ==> lt(a, c))
  }

  /** No element has a key that should come before the key of an earlier element. */
  ghost predicate SortedBy<T, K>(s: seq<T>, key: T -> K, lt: (K, K) -> bool) {
    forall i, j :: 0 <= i < j < |s| ==> !lt(key(s[j]), key(s[i]))
  }

  /** The elements whose key is `k`, in their original order. */
  function Select<T, K(==)>(s: seq<T>, key: T -> K, k: K): (r: seq<T>)
    ensures |r| <= |s|
  {
    if |s| == 0 then []
    else if key(s[0]) == k then [s[0]] + Select(s[1..], key, k)
    else Select(s[1..], key, k)
  }

  /** Inserts `x` after every element whose key does not come after its own. */
  function Insert<T, K>(x: T, s: seq<T>, key: T -> K, lt: (K, K) -> bool): (r: seq<T>)
    ensures |r| == |s| + 1
    ensures multiset(r) == multiset(s) + multiset{x}
  {
    if |s| == 0 || lt(key(x), key(s[0])) then [x] + s
    else
      assert s == [s[0]] + s[1..];
      [s[0]] + Insert(x, s[1..], key, lt)
  }

  /** Stable insertion sort: `sorted(s, key=key)` with `lt` ordering the keys. */
  function SortBy<T, K>(s: seq<T>, key: T -> K, lt: (K, K) -> bool): (r: seq<T>)
    ensures |r| == |s|
    ensures multiset(r) == multiset(s)
  {
    if |s| == 0 then []
    else
      assert s == s[..|s| - 1] + [s[|s| - 1]];
      Insert(s[|s| - 1], SortBy(s[..|s| - 1], key, lt), key, lt)
  }

  lemma {:induction false} InsertSorted<T, K(!new)>(x: T, s: seq<T>, key: T -> K, lt: (K, K) -> bool)
    requires StrictOrder(lt) && SortedBy(s, key, lt)
    ensures SortedBy(Insert(x, s, key, lt), key, lt)
  {
    if |s| == 0 || lt(key(x), key(s[0])) {
      var r := [x] + s;
      forall i, j | 0 <= i < j < |r|
        ensures !lt(key(r[j]), key(r[i]))
      {
        if i == 0 && j > 1 {
          assert !lt(key(s[j - 1]), key(s[0]));
        }
      }
    } else {
      InsertSorted(x, s[1..], key, lt);
      var tail := Insert(x, s[1..], key, lt);
      var r := [s[0]] + tail;
      forall i, j | 0 <= i < j < |r|
        ensures !lt(key(r[j]), key(r[i]))
      {
        if i == 0 {
          assert r[j] in multiset(tail);
          assert r[j] in multiset(s[1..]) || r[j] == x;
          if r[j] != x {
            var m :| 0 <= m < |s[1..]| && s[1..][m] == r[j];
            assert s[m + 1] == r[j];
          }
        }
      }
    }
  }

  /** The result of `SortBy` is ordered by key. */
  lemma {:induction false} SortBySorted<T, K(!new)>(s: seq<T>, key: T -> K, lt: (K, K) -> bool)
    requires StrictOrder(lt)
    ensures SortedBy(SortBy(s, key, lt), key, lt)
  {
    if |s| > 0 {
      SortBySorted(s[..|s| - 1], key, lt);
      InsertSorted(s[|s| - 1], SortBy(s[..|s| - 1], key, lt), key, lt);
    }
  }

  lemma {:induction false} SelectAppend<T, K>(a: seq<T>, b: seq<T>, key: T -> K, k: K)
    ensures Select(a + b, key, k) == Select(a, key, k) + Select(b, key, k)
  {
    if |a| == 0 {
      assert a + b == b;
    } else {
      SelectAppend(a[1..], b, key, k);
      assert (a + b)[0] == a[0];
      assert (a + b)[1..] == a[1..] + b;
      if key(a[0]) == k {
        calc {
          Select(a + b, key, k);
          [a[0]] + Select(a[1..] + b, key, k);
          [a[0]] + (Select(a[1..], key, k) + Select(b, key, k));
          ([a[0]] + Select(a[1..], key, k)) + Select(b, key, k);
        }
      }
    }
  }

  lemma {:induction false} SelectNone<T, K>(s: seq<T>, key: T -> K, k: K)
    requires forall i :: 0 <= i < |s| ==> key(s[i]) != k
    ensures Select(s, key, k) == []
  {
    if |s| > 0 {
      SelectNone(s[1..], key, k);
    }
  }

  lemma {:induction false} InsertSelect<T, K(!new)>(x: T, s: seq<T>, key: T -> K, lt: (K, K) -> bool, k: K)
    requires StrictOrder(lt) && SortedBy(s, key, lt)
    ensures Select(Insert(x, s, key, lt), key, k) == Select(s, key, k) + (if key(x) == k then [x] else [])
  {
    if |s| == 0 {
    } else if lt(key(x), key(s[0])) {
      if key(x) == k {
        forall i | 0 <= i < |s|
          ensures key(s[i]) != k
        {
          if i == 0 {
            assert !lt(key(x), key(x));
          }
        }
        SelectNone(s, key, k);
      }
      assert ([x] + s)[1..] == s;
    } else {
      InsertSelect(x, s[1..], key, lt, k);
      assert ([s[0]] + Insert(x, s[1..], key, lt))[1..] == Insert(x, s[1..], key, lt);
    }
  }

  /** `SortBy` is stable: the elements with any one key keep their input order. */
  lemma {:induction false} SortByStable<T, K(!new)>(s: seq<T>, key: T -> K, lt: (K, K) -> bool, k: K)
    requires StrictOrder(lt)
    ensures Select(SortBy(s, key, lt), key, k) == Select(s, key, k)
  {
    if |s| > 0 {
      var init, last := s[..|s| - 1], s[|s| - 1];
      SortByStable(init, key, lt, k);
      SortBySorted(init, key, lt);
      InsertSelect(last, SortBy(init, key, lt), key, lt, k);
      assert s == init + [last];
      SelectAppend(init, [last], key, k);
      assert [last][1..] == [];
      assert Select([last], key, k) == if key(last) == k then [last] else [];
      calc {
        Select(SortBy(s, key, lt), key, k);
        Select(Insert(last, SortBy(init, key, lt), key, lt), key, k);
        Select(SortBy(init, key, lt), key, k) + (if key(last) == k then [last] else []);
        Select(init, key, k) + Select([last], key, k);
        Select(s, key, k);
      }
    }
  }

  /** Any two different keys are ordered one way or the other. */
  ghost predicate Total<K(!new)>(lt: (K, K) -> bool) {
    forall a, b :: a == b || lt(a, b) || lt(b, a)
  }

  /**
   * The position of the first element whose key no other key comes
   * before: the element a stable sort puts first.
   */
  function FirstTop<T, K(!new)>(s: seq<T>, key: T -> K, lt: (K, K) -> bool): (m: nat)
    requires |s| > 0 && StrictOrder(lt) && Total(lt)
    ensures m < |s|
    ensures forall j :: 0 <= j < |s| ==> !lt(key(s[j]), key(s[m]))
    ensures forall j :: 0 <= j < m ==> lt(key(s[m]), key(s[j]))
  {
    if |s| == 1 then 0
    else
      var m := FirstTop(s[..|s| - 1], key, lt);
      if lt(key(s[|s| - 1]), key(s[m])) then |s| - 1 else m
  }

  /** The first element of `Select(s, key, k)` is the first element of `s` whose key is `k`. */
  lemma {:induction false} SelectHead<T, K>(s: seq<T>, key: T -> K, k: K, i: nat)
    requires i < |s| && key(s[i]) == k && forall j :: 0 <= j < i ==> key(s[j]) != k
    ensures |Select(s, key, k)| > 0 && Select(s, key, k)[0] == s[i]
  {
    if i > 0 {
      SelectHead(s[1..], key, k, i - 1);
    }
  }

  /** A sorted rearrangement starts with an element whose key nothing comes before. */
  lemma SortedHeadKey<T, K(!new)>(r: seq<T>, s: seq<T>, key: T -> K, lt: (K, K) -> bool, m: nat)
    requires multiset(r) == multiset(s) && SortedBy(r, key, lt) && Total(lt)
    requires m < |s| && forall j :: 0 <= j < |s| ==> !lt(key(s[j]), key(s[m]))
    ensures |r| > 0 && key(r[0]) == key(s[m])
  {
    assert s[m] in multiset(r);
    var j :| 0 <= j < |r| && r[j] == s[m];
    assert r[0] in multiset(s);
    var i :| 0 <= i < |s| && s[i] == r[0];
    if j > 0 {
      assert !lt(key(r[j]), key(r[0]));
    }
  }

  /** The head of `sorted(s, key=...)` is the first element whose key nothing comes before. */
  lemma SortByHead<T, K(!new)>(s: seq<T>, key: T -> K, lt: (K, K) -> bool)
    requires |s| > 0 && StrictOrder(lt) && Total(lt)
    ensures SortBy(s, key, lt)[0] == s[FirstTop(s, key, lt)]
  {
    var r := SortBy(s, key, lt);
    var m := FirstTop(s, key, lt);
    var top := key(s[m]);
    SortBySorted(s, key, lt);
    SortByStable(s, key, lt, top);
    SortedHeadKey(r, s, key, lt, m);
    SelectHead(s, key, top, m);
    SelectHead(r, key, top, 0);
  }

  /** Python's string order is a strict total order. */
  lemma StrLessOrder()
    ensures StrictOrder(StrLess) && Total(StrLess)
  {
    forall a ensures !StrLess(a, a) {
      StrLessIrreflexive(a);
    }
    forall a, b, c | StrLess(a, b) && StrLess(b, c) ensures StrLess(a, c) {
      StrLessTransitive(a, b, c);
    }
    forall a: string, b: string ensures a == b || StrLess(a, b) || StrLess(b, a) {
      StrLessTotal(a, b);
    }
  }
}
