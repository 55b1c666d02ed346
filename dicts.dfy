/**
 * Python's insertion-ordered `dict`, as the sequence of its entries:
 * a new key is appended, an existing key keeps its place and takes the
 * new value.
 */
module Dicts {
  import opened Common

  type Dict<K, V> = seq<(K, V)>

  function Keys<K, V>(d: Dict<K, V>): (ks: seq<K>)
    ensures |ks| == |d| && forall i :: 0 <= i < |d| ==> ks[i] == d[i].0
  {
    seq(|d|, i requires 0 <= i < |d| => d[i].0)
  }

  /** `d.get(k)`. */
  function Get<K(==), V>(d: Dict<K, V>, k: K): (r: Option<V>)
    ensures r.None? <==> k !in Keys(d)
  {
    match Find(Keys(d), k)
    case Some(i) => Some(d[i].1)
    case None => None
  }

  /** `d.get(k, default)`. */
  function GetOr<K(==), V>(d: Dict<K, V>, k: K, default: V): V {
    match Get(d, k)
    case Some(v) => v
    case None => default
  }

  /** `d[k] = v`. */
  function Set<K(==), V>(d: Dict<K, V>, k: K, v: V): (r: Dict<K, V>)
  {
    match Find(Keys(d), k)
    case Some(i) => d[i := (k, v)]
    case None => d + [(k, v)]
  }

  /** `d.get(k, default)` after `d[k] = v`. */
  lemma GetOrSet<K, V>(d: Dict<K, V>, k: K, v: V, k2: K, default: V)
    ensures GetOr(Set(d, k, v), k2, default) == if k2 == k then v else GetOr(d, k2, default)
  {
    GetSet(d, k, v, k2);
  }

  /** Assignment adds the key at the end when it is new and otherwise keeps the key order. */
  lemma SetKeys<K, V>(d: Dict<K, V>, k: K, v: V)
    ensures Keys(Set(d, k, v)) == AddNew(Keys(d), k)
  {
    match Find(Keys(d), k)
    case Some(i) =>
      assert Keys(Set(d, k, v)) == Keys(d);
    case None =>
      assert Keys(Set(d, k, v)) == Keys(d) + [k];
  }

  /** Assigning a new key appends its entry. */
  lemma SetNew<K, V>(d: Dict<K, V>, k: K, v: V)
    requires k !in Keys(d)
    ensures Set(d, k, v) == d + [(k, v)]
  {
  }

  /** Lookup in a dict with one more entry at the end: an earlier entry of the key wins. */
  lemma GetSnoc<K, V>(d: Dict<K, V>, k: K, v: V, a: K)
    ensures Get(d + [(k, v)], a) == if a in Keys(d) then Get(d, a) else if a == k then Some(v) else None
  {
    var r := d + [(k, v)];
    assert Keys(r) == Keys(d) + [k];
    match Find(Keys(d), a)
    case Some(j) =>
      assert Keys(r)[..j] == Keys(d)[..j];
      FindFirst(Keys(r), a, j);
    case None =>
      if a == k {
        assert Keys(r)[..|d|] == Keys(d);
        FindFirst(Keys(r), a, |d|);
      }
  }

  /** Lookup reads the first entry, or else the rest of the entries. */
  lemma GetCons<K, V>(d: Dict<K, V>, k: K)
    requires |d| > 0
    ensures Get(d, k) == if d[0].0 == k then Some(d[0].1) else Get(d[1..], k)
  {
    assert Keys(d)[1..] == Keys(d[1..]);
  }

  /** After `d[k] = v`, `k` reads `v` and every other key reads what it did. */
  lemma GetSet<K, V>(d: Dict<K, V>, k: K, v: V, k2: K)
    ensures Get(Set(d, k, v), k2) == if k2 == k then Some(v) else Get(d, k2)
  {
    SetKeys(d, k, v);
    var r := Set(d, k, v);
    match Find(Keys(d), k)
    case Some(i) =>
      assert Keys(r) == Keys(d);
      if k2 != k {
        match Find(Keys(d), k2)
        case Some(j) => assert j != i;
        case None =>
      }
    case None =>
      assert Keys(r) == Keys(d) + [k];
      if k2 != k {
        match Find(Keys(d), k2)
        case Some(j) =>
          assert Keys(r)[..j] == Keys(d)[..j];
          FindFirst(Keys(r), k2, j);
        case None =>
      }
  }

  /** `d[k] = bump(d[k])` when `k` is present, `d[k] = init` otherwise. */
  function SetOrBump<K(==), V>(d: Dict<K, V>, k: K, init: V, bump: V -> V): Dict<K, V> {
    match Get(d, k)
    case None => Set(d, k, init)
    case Some(v) => Set(d, k, bump(v))
  }

  /** After an upsert, `k` reads `init` or its bumped value, and every other key reads what it did. */
  lemma GetSetOrBump<K, V>(d: Dict<K, V>, k: K, init: V, bump: V -> V, k2: K)
    ensures Get(SetOrBump(d, k, init, bump), k2) ==
      if k2 != k then Get(d, k2)
      else match Get(d, k)
        case None => Some(init)
        case Some(v) => Some(bump(v))
  {
    match Get(d, k)
    case None => GetSet(d, k, init, k2);
    case Some(v) => GetSet(d, k, bump(v), k2);
  }

  /** The sum of a measure of the values, `sum(f(v) for v in d.values())`. */
  function TotalOf<K, V>(d: Dict<K, V>, f: V -> nat): nat {
    if |d| == 0 then 0 else TotalOf(d[..|d| - 1], f) + f(d[|d| - 1].1)
  }

  /** Replacing one entry's value changes the sum by the difference of the measures. */
  lemma {:induction false} TotalOfUpdate<K, V>(d: Dict<K, V>, i: nat, e: (K, V), f: V -> nat)
    requires i < |d|
    ensures TotalOf(d[i := e], f) == TotalOf(d, f) - f(d[i].1) + f(e.1)
  {
    var n := |d| - 1;
    if i < n {
      TotalOfUpdate(d[..n], i, e, f);
      assert d[i := e][..n] == d[..n][i := e];
    } else {
      assert d[i := e][..n] == d[..n];
    }
  }

  /** After `d[k] = v` the sum loses the measure of the old value of `k`, if any, and gains that of `v`. */
  lemma TotalOfSet<K, V>(d: Dict<K, V>, k: K, v: V, f: V -> nat)
    ensures TotalOf(Set(d, k, v), f) == TotalOf(d, f) - (match Get(d, k) case None => 0 case Some(w) => f(w)) + f(v)
  {
    match Find(Keys(d), k)
    case Some(i) =>
      TotalOfUpdate(d, i, (k, v), f);
    case None =>
      assert (d + [(k, v)])[..|d|] == d;
  }
}
