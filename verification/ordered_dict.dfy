/** Python dicts as insertion-ordered association lists. Assigning to an existing
    key replaces its value in place; a new key goes at the end. */
module OrderedDict {
  import opened Wrappers
  import opened Seqs

  datatype Item<K, V> = Item(key: K, val: V)

  type Dict<K, V> = seq<Item<K, V>>

  /** `list(d.keys())` */
  function Keys<K, V>(d: Dict<K, V>): (r: seq<K>)
    ensures |r| == |d|
    ensures forall i :: 0 <= i < |d| ==> r[i] == d[i].key
  {
    seq(|d|, i requires 0 <= i < |d| => d[i].key)
  }

  /** `list(d.values())` */
  function Values<K, V>(d: Dict<K, V>): (r: seq<V>)
    ensures |r| == |d|
    ensures forall i :: 0 <= i < |d| ==> r[i] == d[i].val
  {
    seq(|d|, i requires 0 <= i < |d| => d[i].val)
  }

  /** `dict(zip(xs, range(len(xs))))` for keys without repeats: each key maps to its position. */
  function ZipWithPositions<K>(xs: seq<K>): (d: Dict<K, int>)
    ensures Keys(d) == xs
    ensures forall i :: 0 <= i < |d| ==> d[i].val == i
  {
    seq(|xs|, i requires 0 <= i < |xs| => Item(xs[i], i))
  }

  /** `list(range(n))`. */
  function Range(n: nat): (r: seq<int>)
    ensures |r| == n
    ensures forall i :: 0 <= i < n ==> r[i] == i
  {
    seq(n, i requires 0 <= i < n => i)
  }

  /** Zipping with positions numbers the values `0, 1, ...`. */
  lemma ZipValues<K>(xs: seq<K>)
    ensures Values(ZipWithPositions(xs)) == Range(|xs|)
  {
  }

  /** Zipping with positions gives strictly increasing values. */
  lemma ZipIncreasing<K>(xs: seq<K>)
    ensures IncreasingVals(ZipWithPositions(xs))
  {
  }

  /** A well-formed dict holds each key once. */
  predicate WellFormed<K(==), V>(d: Dict<K, V>) {
    Distinct(Keys(d))
  }

  /** `d.get(k)`: the value stored under `k`, or None. */
  function Get<K(==), V>(d: Dict<K, V>, k: K): (r: Option<V>)
    ensures r.None? <==> k !in Keys(d)
    ensures r.Some? ==> exists i :: 0 <= i < |d| && d[i] == Item(k, r.value)
  {
    match IndexOf(Keys(d), k)
    case None => None
    case Some(i) => Some(d[i].val)
  }

  /** In a well-formed dict the entry at position `i` is what `Get` finds for its key. */
  lemma GetAt<K, V>(d: Dict<K, V>, i: nat)
    requires WellFormed(d) && i < |d|
    ensures Get(d, d[i].key) == Some(d[i].val)
  {
    IndexOfDistinct(Keys(d), i);
  }

  /** In the dict zipping a rotation of distinct keys with positions, each key maps to
      how far after the starting key it comes, cyclically. */
  lemma RotatedPositions<K>(xs: seq<K>, s: nat, k: nat)
    requires Distinct(xs) && s < |xs| && k < |xs|
    ensures WellFormed(ZipWithPositions(Rotate(xs, s)))
    ensures Get(ZipWithPositions(Rotate(xs, s)), xs[k]) == Some(CyclicOffset(s, k, |xs|))
  {
    var d := ZipWithPositions(Rotate(xs, s));
    RotateDistinct(xs, s);
    RotateFind(xs, s, k);
    GetAt(d, CyclicOffset(s, k, |xs|));
  }

  /** `d[k] = v`. */
  function Put<K(==, !new), V>(d: Dict<K, V>, k: K, v: V): (r: Dict<K, V>)
    ensures Get(r, k) == Some(v)
    ensures forall k' :: k' != k ==> Get(r, k') == Get(d, k')
    ensures k in Keys(d) ==> Keys(r) == Keys(d)
    ensures k !in Keys(d) ==> Keys(r) == Keys(d) + [k]
    ensures WellFormed(d) ==> WellFormed(r)
  {
    match IndexOf(Keys(d), k)
    case None =>
      var r := d + [Item(k, v)];
      assert Keys(r) == Keys(d) + [k];
      IndexOfAppend(Keys(d), k);
      forall k' | k' != k
        ensures Get(r, k') == Get(d, k')
      {
        IndexOfAppend(Keys(d), k');
      }
      r
    case Some(i) =>
      var r := d[i := Item(k, v)];
      assert Keys(r) == Keys(d);
      r
  }
  /** `[(k, v) for k, v in d.items() if v in ds]`. */
  function SelectItems<K(==)>(d: Dict<K, int>, ds: seq<int>): (r: Dict<K, int>)
    ensures forall i :: 0 <= i < |r| ==> r[i] in d && r[i].val in ds
    ensures forall i :: 0 <= i < |d| && d[i].val in ds ==> d[i] in r
    ensures |r| <= |d|
  {
    if |d| == 0 then []
    else (if d[0].val in ds then [d[0]] else []) + SelectItems(d[1..], ds)
  }

  /** `[k for k, v in d.items() if v in ds]`: picking the keys whose value is listed. */
  function Select<K(==)>(d: Dict<K, int>, ds: seq<int>): seq<K> {
    Keys(SelectItems(d, ds))
  }

  /** Values increase strictly along the dict. */
  predicate IncreasingVals<K>(d: Dict<K, int>) {
    forall i, j :: 0 <= i < j < |d| ==> d[i].val < d[j].val
  }

  /** Filtering keeps the survivors in their original order. */
  lemma {:induction false} SelectItemsIncreasing<K>(d: Dict<K, int>, ds: seq<int>)
    requires IncreasingVals(d)
    ensures IncreasingVals(SelectItems(d, ds))
  {
    if |d| > 0 {
      var tail := d[1..];
      assert IncreasingVals(tail);
      SelectItemsIncreasing(tail, ds);
      SelectItemsAbove(tail, ds, d[0].val);
      if d[0].val in ds {
        IncreasingCons(d[0], SelectItems(tail, ds));
      }
    }
  }

  lemma IncreasingCons<K>(x: Item<K, int>, rest: Dict<K, int>)
    requires IncreasingVals(rest)
    requires forall j :: 0 <= j < |rest| ==> x.val < rest[j].val
    ensures IncreasingVals([x] + rest)
  {
    var r := [x] + rest;
    forall i, j | 0 <= i < j < |r|
      ensures r[i].val < r[j].val
    {
      assert r[j] == rest[j - 1];
      if i > 0 {
        assert r[i] == rest[i - 1];
      }
    }
  }

  /** Filtering keeps every value above a bound all values were above. */
  lemma SelectItemsAbove<K>(d: Dict<K, int>, ds: seq<int>, lo: int)
    requires forall i :: 0 <= i < |d| ==> lo < d[i].val
    ensures forall j :: 0 <= j < |SelectItems(d, ds)| ==> lo < SelectItems(d, ds)[j].val
  {
  }

  /** `[v for v in vs if v in ds]`. */
  function FilterIn(vs: seq<int>, ds: seq<int>): (r: seq<int>)
    ensures forall x :: x in r <==> x in vs && x in ds
    ensures Increasing(vs) ==> Increasing(r)
  {
    if |vs| == 0 then []
    else
      var rest := FilterIn(vs[1..], ds);
      if vs[0] in ds then
        assert Increasing(vs) ==> forall j :: 0 <= j < |rest| ==> vs[0] < rest[j] by {
          if Increasing(vs) {
            forall j | 0 <= j < |rest|
              ensures vs[0] < rest[j]
            {
              assert rest[j] in vs[1..];
            }
          }
        }
        [vs[0]] + rest
      else rest
  }

  /** How many names are picked depends only on the values, not on the names. */
  lemma {:induction false} SelectItemsLength<K>(d: Dict<K, int>, ds: seq<int>)
    ensures |SelectItems(d, ds)| == |FilterIn(Values(d), ds)|
  {
    if |d| > 0 {
      assert Values(d)[1..] == Values(d[1..]);
      SelectItemsLength(d[1..], ds);
    }
  }

  /** In a well-formed dict, a key is picked exactly when it is present with a listed value. */
  lemma SelectByGet<K>(d: Dict<K, int>, ds: seq<int>, k: K)
    requires WellFormed(d)
    ensures k in Select(d, ds) <==> Get(d, k).Some? && Get(d, k).value in ds
  {
    var items := SelectItems(d, ds);
    if k in Select(d, ds) {
      var a :| 0 <= a < |items| && Keys(items)[a] == k;
      var i :| 0 <= i < |d| && d[i] == items[a];
      GetAt(d, i);
    }
    if Get(d, k).Some? && Get(d, k).value in ds {
      var i :| 0 <= i < |d| && d[i] == Item(k, Get(d, k).value);
      assert d[i] in items;
      var a :| 0 <= a < |items| && items[a] == d[i];
      assert Keys(items)[a] == k;
    }
  }

  /** Picking from a dict whose values increase gives keys whose values increase. */
  lemma SelectIncreasing<K>(d: Dict<K, int>, ds: seq<int>)
    requires WellFormed(d) && IncreasingVals(d)
    ensures var r := Select(d, ds);
      forall a, b :: 0 <= a < b < |r| ==>
        Get(d, r[a]).Some? && Get(d, r[b]).Some? && Get(d, r[a]).value < Get(d, r[b]).value
  {
    SelectItemsIncreasing(d, ds);
    SelectItemsGet(d, ds);
  }

  /** Every picked entry is what `Get` finds for its key. */
  lemma SelectItemsGet<K>(d: Dict<K, int>, ds: seq<int>)
    requires WellFormed(d)
    ensures forall a :: 0 <= a < |SelectItems(d, ds)| ==>
      Get(d, SelectItems(d, ds)[a].key) == Some(SelectItems(d, ds)[a].val)
  {
    var items := SelectItems(d, ds);
    forall a | 0 <= a < |items|
      ensures Get(d, items[a].key) == Some(items[a].val)
    {
      var i :| 0 <= i < |d| && d[i] == items[a];
      GetAt(d, i);
    }
  }

  /** Two lists of values that agree on every value present pick the same entries. */
  lemma {:induction false} SelectItemsSame<K>(d: Dict<K, int>, ds: seq<int>, es: seq<int>)
    requires forall i :: 0 <= i < |d| ==> (d[i].val in ds <==> d[i].val in es)
    ensures SelectItems(d, ds) == SelectItems(d, es)
  {
    if |d| > 0 {
      SelectItemsSame(d[1..], ds, es);
    }
  }
}
