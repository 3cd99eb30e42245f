/** Sequence operations the Python code gets from its built-ins: `list.index`,
    slicing-and-concatenating rotations, `str.split`, substring tests and
    first-occurrence de-duplication (what inserting keys into a dict does). */
module Seqs {
  import opened Wrappers

  /** `xs.index(x)`: the position of the first occurrence of `x`, or None on a miss. */
  function IndexOf<T(==)>(xs: seq<T>, x: T): (r: Option<nat>)
    ensures r.None? <==> x !in xs
    ensures r.Some? ==> r.value < |xs| && xs[r.value] == x && x !in xs[..r.value]
  {
    if |xs| == 0 then None
    else if xs[0] == x then Some(0)
    else match IndexOf(xs[1..], x)
      case None => None
      case Some(i) =>
        assert xs[..i + 1] == [xs[0]] + xs[1..][..i];
        Some(i + 1)
  }

  /** Appending an element does not change where an earlier element is first found. */
  lemma {:induction false} IndexOfAppend<T>(xs: seq<T>, x: T)
    ensures x in xs ==> IndexOf(xs + [x], x) == IndexOf(xs, x)
    ensures x !in xs ==> IndexOf(xs + [x], x) == Some(|xs|)
    ensures forall y :: y != x ==> IndexOf(xs + [x], y) == IndexOf(xs, y)
  {
    if |xs| > 0 {
      assert (xs + [x])[1..] == xs[1..] + [x];
      IndexOfAppend(xs[1..], x);
    }
  }

  /** No element occurs twice. */
  predicate Distinct<T(==)>(xs: seq<T>) {
    forall i, j :: 0 <= i < j < |xs| ==> xs[i] != xs[j]
  }

  /** Each element is smaller than every later one. */
  predicate Increasing(xs: seq<int>) {
    forall a, b :: 0 <= a < b < |xs| ==> xs[a] < xs[b]
  }

  /** Appending an element above all others keeps a sequence increasing. */
  lemma IncreasingSnoc(xs: seq<int>, x: int)
    requires Increasing(xs)
    requires forall i :: 0 <= i < |xs| ==> xs[i] < x
    ensures Increasing(xs + [x])
  {
    var r := xs + [x];
    forall a, b | 0 <= a < b < |r|
      ensures r[a] < r[b]
    {
      assert r[a] == xs[a];
    }
  }

  /** In a sequence without repeats, the index found is the only one holding `x`. */
  lemma IndexOfDistinct<T>(xs: seq<T>, i: nat)
    requires Distinct(xs) && i < |xs|
    ensures IndexOf(xs, xs[i]) == Some(i)
  {
  }

  /** `xs[i]` with Python's indexing: a negative index counts from the end, and an index
      outside `-len(xs) .. len(xs) - 1` raises IndexError. */
  function PyIndex<T>(xs: seq<T>, i: int): (r: Result<T>)
    ensures r.Ok? <==> -|xs| <= i < |xs|
    ensures r.Err? ==> r.error == IndexError
    ensures r.Ok? && 0 <= i ==> r.value == xs[i]
    ensures r.Ok? && i < 0 ==> r.value == xs[|xs| + i]
  {
    if i < -|xs| || |xs| <= i then Err(IndexError)
    else if i < 0 then Ok(xs[|xs| + i])
    else Ok(xs[i])
  }

  /** `xs[k:] + xs[:k]`: the sequence rotated to start at position `k`. */
  function Rotate<T>(xs: seq<T>, k: nat): (r: seq<T>)
    requires k < |xs|
    ensures |r| == |xs|
    ensures r[0] == xs[k]
    ensures forall i :: 0 <= i < |xs| - k ==> r[i] == xs[k + i]
    ensures forall i :: |xs| - k <= i < |xs| ==> r[i] == xs[k + i - |xs|]
  {
    xs[k..] + xs[..k]
  }

  /** A rotation holds the same elements, as often, as the original. */
  lemma RotateMultiset<T>(xs: seq<T>, k: nat)
    requires k < |xs|
    ensures multiset(Rotate(xs, k)) == multiset(xs)
  {
    assert xs == xs[..k] + xs[k..];
  }

  /** Rotating a sequence without repeats gives a sequence without repeats. */
  lemma RotateDistinct<T>(xs: seq<T>, k: nat)
    requires k < |xs| && Distinct(xs)
    ensures Distinct(Rotate(xs, k))
  {
  }

  /** How far after position `k` position `j` comes, going round a cycle of length `n`. */
  function CyclicOffset(k: nat, j: nat, n: nat): nat
    requires k < n && j < n
  {
    if k <= j then j - k else j + n - k
  }

  /** Two positions at the same cyclic offset from `k` are the same position. */
  lemma CyclicOffsetInjective(k: nat, i: nat, j: nat, n: nat)
    requires k < n && i < n && j < n
    requires CyclicOffset(k, i, n) == CyclicOffset(k, j, n)
    ensures i == j
  {
  }

  /** The element at position `j` sits at its cyclic offset from `k` after rotating by `k`. */
  lemma RotateFind<T>(xs: seq<T>, k: nat, j: nat)
    requires k < |xs| && j < |xs|
    ensures CyclicOffset(k, j, |xs|) < |xs|
    ensures Rotate(xs, k)[CyclicOffset(k, j, |xs|)] == xs[j]
  {
  }

  /** Reducing a number in `[-n, n)` adds the modulus at most once. */
  lemma WrapBelowZero(a: int, n: nat)
    requires 0 < n && -(n as int) <= a < n
    ensures 0 <= a ==> a % n == a
    ensures a < 0 ==> a % n == a + n
  {
    if a < 0 {
      assert a + n == a + n * 1;
    }
  }

  /** Reducing a number below twice the modulus subtracts the modulus at most once. */
  lemma WrapOnce(a: nat, n: nat)
    requires 0 < n && a < 2 * n
    ensures a < n ==> a % n == a
    ensures n <= a ==> a % n == a - n
  {
    if n <= a {
      assert a == (a - n) + n;
    }
  }

  /** Python's `sub in s` on strings. */
  predicate HasSubstring(s: string, sub: string)
    decreases |s|
  {
    (|sub| <= |s| && s[..|sub|] == sub) || (|s| > 0 && HasSubstring(s[1..], sub))
  }

  /** Python's `s.split(sep)` with a one-character separator. */
  function Split<T(==)>(s: seq<T>, sep: T): (r: seq<seq<T>>)
    ensures |r| >= 1
    ensures forall t :: t in r ==> sep !in t
    decreases |s|
  {
    match IndexOf(s, sep)
    case None => [s]
    case Some(i) => [s[..i]] + Split(s[i + 1..], sep)
  }

  /** `sep.join(ts)`. */
  function Join<T>(ts: seq<seq<T>>, sep: T): seq<T>
    requires |ts| >= 1
  {
    if |ts| == 1 then ts[0] else ts[0] + [sep] + Join(ts[1..], sep)
  }

  /** Splitting loses nothing: joining the pieces back gives the original string. */
  lemma {:induction false} JoinSplit<T>(s: seq<T>, sep: T)
    ensures Join(Split(s, sep), sep) == s
    decreases |s|
  {
    match IndexOf(s, sep)
    case None =>
    case Some(i) =>
      var rest := Split(s[i + 1..], sep);
      var ts := [s[..i]] + rest;
      assert ts[0] == s[..i] && ts[1..] == rest;
      JoinSplit(s[i + 1..], sep);
      CutAt(s, i);
  }

  /** A sequence is the part before position `i`, the element there, and the rest. */
  lemma CutAt<T>(s: seq<T>, i: nat)
    requires i < |s|
    ensures s[..i] + [s[i]] + s[i + 1..] == s
  {
  }

  /** The first occurrence of `x` in `a + [x] + b`, when `a` does not hold it, is right
      after `a`. */
  lemma {:induction false} IndexOfAfter<T>(a: seq<T>, x: T, b: seq<T>)
    requires x !in a
    ensures IndexOf(a + [x] + b, x) == Some(|a|)
  {
    if |a| > 0 {
      assert (a + [x] + b)[1..] == a[1..] + [x] + b;
      IndexOfAfter(a[1..], x, b);
    }
  }

  /** Splitting undoes joining pieces that do not hold the separator. */
  lemma {:induction false} SplitJoin<T>(ts: seq<seq<T>>, sep: T)
    requires |ts| >= 1 && forall i :: 0 <= i < |ts| ==> sep !in ts[i]
    ensures Split(Join(ts, sep), sep) == ts
  {
    if |ts| > 1 {
      var rest := Join(ts[1..], sep);
      var s := ts[0] + [sep] + rest;
      IndexOfAfter(ts[0], sep, rest);
      assert s[..|ts[0]|] == ts[0];
      assert s[|ts[0]| + 1..] == rest;
      SplitJoin(ts[1..], sep);
      assert ts == [ts[0]] + ts[1..];
    }
  }

  /** The distinct elements of `xs` in order of first occurrence: the key order of a
      Python dict filled by assigning `d[x]` for each `x` of `xs` in turn. */
  function Dedup<T(==)>(xs: seq<T>): (r: seq<T>)
    ensures Distinct(r)
    ensures forall i :: 0 <= i < |xs| ==> xs[i] in r
    ensures forall i :: 0 <= i < |r| ==> r[i] in xs
    ensures |r| <= |xs|
  {
    if |xs| == 0 then []
    else
      var d := Dedup(xs[..|xs| - 1]);
      var x := xs[|xs| - 1];
      assert xs == xs[..|xs| - 1] + [x];
      if x in d then d else d + [x]
  }

  /** De-duplication of a longer sequence: the last element is kept only if new. */
  lemma DedupSnoc<T>(xs: seq<T>, x: T)
    ensures Dedup(xs + [x]) == if x in Dedup(xs) then Dedup(xs) else Dedup(xs) + [x]
  {
    assert (xs + [x])[..|xs|] == xs;
  }

  /** The first element is always kept, and kept first. */
  lemma {:induction false} DedupFirst<T>(xs: seq<T>)
    requires |xs| > 0
    ensures |Dedup(xs)| > 0 && Dedup(xs)[0] == xs[0]
  {
    if |xs| > 1 {
      var init := xs[..|xs| - 1];
      DedupFirst(init);
      assert init[0] == xs[0];
    }
  }

  /** A repeat of an earlier element at the end of a sequence without repeats adds
      nothing to its de-duplication. */
  lemma DedupRepeatLast<T>(xs: seq<T>)
    requires |xs| > 0 && Distinct(xs[..|xs| - 1]) && xs[|xs| - 1] in xs[..|xs| - 1]
    ensures Dedup(xs) == xs[..|xs| - 1]
  {
    DedupDistinct(xs[..|xs| - 1]);
  }

  /** De-duplication of `[x] + ps` after one more element. */
  lemma DedupConsSnoc<T>(x: T, ps: seq<T>, y: T)
    ensures Dedup([x] + (ps + [y])) == if y in Dedup([x] + ps) then Dedup([x] + ps) else Dedup([x] + ps) + [y]
  {
    assert [x] + (ps + [y]) == ([x] + ps) + [y];
    DedupSnoc([x] + ps, y);
  }

  /** A prefix one longer is the shorter prefix and the next element. */
  lemma PrefixSnoc<T>(xs: seq<T>, i: nat)
    requires i < |xs|
    ensures xs[..i + 1] == xs[..i] + [xs[i]]
  {
  }

  /** The prefix as long as the sequence is the whole sequence. */
  lemma PrefixAll<T>(xs: seq<T>)
    ensures xs[..|xs|] == xs
  {
  }

  /** A sequence without repeats is its own de-duplication. */
  lemma {:induction false} DedupDistinct<T>(xs: seq<T>)
    requires Distinct(xs)
    ensures Dedup(xs) == xs
  {
    if |xs| > 0 {
      var init := xs[..|xs| - 1];
      assert xs == init + [xs[|xs| - 1]];
      DedupDistinct(init);
      DedupSnoc(init, xs[|xs| - 1]);
    }
  }

  /** The first element of an increasing sequence is its least. */
  lemma IncreasingFirst(xs: seq<int>, j: nat)
    requires Increasing(xs) && j < |xs|
    ensures xs[0] <= xs[j]
  {
    if j > 0 {
      assert xs[0] < xs[j];
    }
  }

  /** Two increasing sequences with the same elements are equal. */
  lemma {:induction false} IncreasingUnique(a: seq<int>, b: seq<int>)
    requires Increasing(a) && Increasing(b)
    requires forall x :: x in a <==> x in b
    ensures a == b
    decreases |a|
  {
    if |a| == 0 {
      if |b| > 0 {
        FirstIn(b);
        assert false;
      }
    } else {
      IncreasingHeads(a, b);
      IncreasingTail(a);
      IncreasingTail(b);
      IncreasingUnique(a[1..], b[1..]);
      ConsTail(a);
      ConsTail(b);
    }
  }

  /** Two rising sequences holding the same elements start alike. */
  lemma IncreasingHeads(a: seq<int>, b: seq<int>)
    requires Increasing(a) && Increasing(b) && |a| > 0
    requires forall x :: x in a <==> x in b
    ensures |b| > 0 && a[0] == b[0]
  {
    assert a[0] in a;
    var j :| 0 <= j < |b| && b[j] == a[0];
    assert b[0] in b;
    var k :| 0 <= k < |a| && a[k] == b[0];
    IncreasingFirst(b, j);
    IncreasingFirst(a, k);
  }

  /** The rest of a rising sequence rises and holds every element but the first. */
  lemma IncreasingTail(a: seq<int>)
    requires Increasing(a) && |a| > 0
    ensures Increasing(a[1..])
    ensures forall x :: x in a[1..] <==> x in a && x != a[0]
  {
    forall x | x in a[1..]
      ensures x in a && x != a[0]
    {
      var i :| 1 <= i < |a| && a[i] == x;
      assert a[0] < a[i];
    }
    ConsTail(a);
  }


  /** Each element is at most every later one. */
  predicate NonDecreasing(xs: seq<int>) {
    forall a, b :: 0 <= a < b < |xs| ==> xs[a] <= xs[b]
  }

  /** The first element of a non-empty non-decreasing sequence is its least. */
  lemma NonDecreasingFirst(xs: seq<int>, x: int)
    requires NonDecreasing(xs) && x in multiset(xs)
    ensures xs[0] <= x
  {
    var j :| 0 <= j < |xs| && xs[j] == x;
    if j > 0 {
      assert xs[0] <= xs[j];
    }
  }

  /** Dropping the first element keeps a sequence non-decreasing and takes one copy of
      that element out of the multiset. */
  lemma NonDecreasingTail(xs: seq<int>)
    requires NonDecreasing(xs) && |xs| > 0
    ensures NonDecreasing(xs[1..])
    ensures multiset(xs[1..]) == multiset(xs) - multiset{xs[0]}
  {
    assert xs == [xs[0]] + xs[1..];
  }

  /** Two non-decreasing sequences holding the same elements, as often, are equal: a
      sorted order is determined by the multiset alone. */
  lemma {:induction false} NonDecreasingUnique(a: seq<int>, b: seq<int>)
    requires NonDecreasing(a) && NonDecreasing(b) && multiset(a) == multiset(b)
    ensures a == b
    decreases |a|
  {
    if |a| == 0 {
      assert |b| == |multiset(b)| == 0;
    } else {
      NonDecreasingHeads(a, b);
      NonDecreasingTail(a);
      NonDecreasingTail(b);
      NonDecreasingUnique(a[1..], b[1..]);
      ConsTail(a);
      ConsTail(b);
    }
  }

  /** Two non-decreasing sequences holding the same elements start alike. */
  lemma NonDecreasingHeads(a: seq<int>, b: seq<int>)
    requires NonDecreasing(a) && NonDecreasing(b) && multiset(a) == multiset(b) && |a| > 0
    ensures |b| > 0 && a[0] == b[0]
  {
    assert a[0] in multiset(b);
    NonDecreasingFirst(b, a[0]);
    NonDecreasingFirst(a, b[0]);
  }

  /** Sequences with the same multiset have the same length and the same members. */
  lemma MultisetSameMembers<T>(a: seq<T>, b: seq<T>)
    requires multiset(a) == multiset(b)
    ensures |a| == |b| && forall p :: p in a <==> p in b
  {
    assert |a| == |multiset(a)| == |multiset(b)| == |b|;
    forall p
      ensures p in a <==> p in b
    {
      assert p in a <==> p in multiset(a);
      assert p in b <==> p in multiset(b);
    }
  }

  /** A non-empty sequence holds its first element. */
  lemma FirstIn<T>(xs: seq<T>)
    requires |xs| > 0
    ensures xs[0] in xs
  {
  }

  /** A non-empty sequence is its first element followed by the rest. */
  lemma ConsTail<T>(xs: seq<T>)
    requires |xs| > 0
    ensures xs == [xs[0]] + xs[1..]
  {
  }

  /** `[key(x) for x in xs]`. */
  function MapKey<T>(xs: seq<T>, key: T -> int): (r: seq<int>)
    ensures |r| == |xs|
    ensures forall i :: 0 <= i < |xs| ==> r[i] == key(xs[i])
  {
    seq(|xs|, i requires 0 <= i < |xs| => key(xs[i]))
  }

  /** The keys of a sequence with one more element in front. */
  lemma MapKeyCons<T>(x: T, s: seq<T>, key: T -> int)
    ensures MapKey([x] + s, key) == [key(x)] + MapKey(s, key)
  {
  }

  /** Keys never fall along the sequence. */
  predicate SortedBy<T>(xs: seq<T>, key: T -> int) {
    forall i, j :: 0 <= i < j < |xs| ==> key(xs[i]) <= key(xs[j])
  }

  /** Insert `x` into a sequence sorted by `key`, before every entry whose key is the
      same as its own or higher. */
  function InsertBy<T>(x: T, s: seq<T>, key: T -> int): (r: seq<T>)
    ensures |r| == |s| + 1 && multiset(r) == multiset(s) + multiset{x}
    ensures r[0] == x || (|s| > 0 && r[0] == s[0])
  {
    if |s| == 0 || key(x) <= key(s[0]) then
      [x] + s
    else
      assert s == [s[0]] + s[1..];
      [s[0]] + InsertBy(x, s[1..], key)
  }

  /** Inserting adds the key of `x` to the keys, as a multiset. */
  lemma {:induction false} InsertByKeys<T>(x: T, s: seq<T>, key: T -> int)
    ensures multiset(MapKey(InsertBy(x, s, key), key)) == multiset(MapKey(s, key)) + multiset{key(x)}
    decreases |s|
  {
    if |s| == 0 || key(x) <= key(s[0]) {
      MapKeyCons(x, s, key);
    } else {
      var rest := InsertBy(x, s[1..], key);
      InsertByKeys(x, s[1..], key);
      MapKeyCons(s[0], rest, key);
      MapKeyCons(s[0], s[1..], key);
      assert s == [s[0]] + s[1..];
    }
  }

  /** Inserting keeps a lower bound that `x` and every entry of `s` respect. */
  lemma {:induction false} InsertByBound<T>(x: T, s: seq<T>, key: T -> int, lo: int)
    requires lo <= key(x) && forall j :: 0 <= j < |s| ==> lo <= key(s[j])
    ensures forall j :: 0 <= j < |InsertBy(x, s, key)| ==> lo <= key(InsertBy(x, s, key)[j])
    decreases |s|
  {
    if |s| > 0 && key(s[0]) < key(x) {
      InsertByBound(x, s[1..], key, lo);
    }
  }

  /** Inserting into a sorted sequence gives a sorted sequence. */
  lemma {:induction false} InsertBySorted<T>(x: T, s: seq<T>, key: T -> int)
    requires SortedBy(s, key)
    ensures SortedBy(InsertBy(x, s, key), key)
    decreases |s|
  {
    if |s| > 0 && key(s[0]) < key(x) {
      InsertBySorted(x, s[1..], key);
      InsertByBound(x, s[1..], key, key(s[0]));
    }
  }

  /** `sorted(xs, key=key)`: a stable insertion sort. */
  function SortBy<T>(xs: seq<T>, key: T -> int): (r: seq<T>)
    ensures SortedBy(r, key)
    ensures |r| == |xs| && multiset(r) == multiset(xs)
  {
    if |xs| == 0 then []
    else
      assert xs == [xs[0]] + xs[1..];
      InsertBySorted(xs[0], SortBy(xs[1..], key), key);
      InsertBy(xs[0], SortBy(xs[1..], key), key)
  }

  /** Sorting keeps the keys, as a multiset. */
  lemma {:induction false} SortByKeys<T>(xs: seq<T>, key: T -> int)
    ensures multiset(MapKey(SortBy(xs, key), key)) == multiset(MapKey(xs, key))
  {
    if |xs| > 0 {
      var t := xs[1..];
      var st := SortBy(t, key);
      assert SortBy(xs, key) == InsertBy(xs[0], st, key);
      SortByKeys(t, key);
      InsertByKeys(xs[0], st, key);
      ConsTail(xs);
      MapKeyCons(xs[0], t, key);
    }
  }

  /** The keys of the sorted sequence spell `f` exactly when the original holds the
      keys of `f`, as often: the order of the input is irrelevant. */
  lemma SortedKeysMatch<T>(xs: seq<T>, key: T -> int, f: seq<int>)
    requires NonDecreasing(f)
    ensures MapKey(SortBy(xs, key), key) == f <==> multiset(MapKey(xs, key)) == multiset(f)
  {
    var v := MapKey(SortBy(xs, key), key);
    SortByKeys(xs, key);
    if multiset(MapKey(xs, key)) == multiset(f) {
      NonDecreasingUnique(v, f);
    }
  }

  /** The first answer `m` gives along `xs` that is not None, or None. */
  function FirstSome<T, U>(xs: seq<T>, m: T -> Option<U>): (r: Option<U>)
    ensures r.None? <==> forall k :: 0 <= k < |xs| ==> m(xs[k]).None?
    ensures r.Some? ==> exists k :: (0 <= k < |xs| && m(xs[k]) == r
      && forall j :: 0 <= j < k ==> m(xs[j]).None?)
  {
    if |xs| == 0 then None
    else if m(xs[0]).Some? then m(xs[0])
    else
      assert forall k :: 1 <= k < |xs| ==> xs[k] == xs[1..][k - 1];
      var r := FirstSome(xs[1..], m);
      assert r.Some? ==> exists k :: (0 <= k < |xs| && m(xs[k]) == r
        && forall j :: 0 <= j < k ==> m(xs[j]).None?) by {
        if r.Some? {
          var k :| 0 <= k < |xs[1..]| && m(xs[1..][k]) == r && forall j :: 0 <= j < k ==> m(xs[1..][j]).None?;
          assert m(xs[k + 1]) == r;
        }
      }
      r
  }
}
