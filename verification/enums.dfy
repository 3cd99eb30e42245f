/** Python's `Enum` for class bodies that assign plain values: a name whose value
    equals that of an earlier name becomes an alias of the earlier member instead of a
    member of its own. A member is represented by its canonical (first-declared) name. */
module Enums {
  import opened Wrappers
  import opened Seqs
  import opened OrderedDict

  /** The position of the first name declared with the same value as name `i`. */
  function CanonicalIndex<K, V(==)>(body: Dict<K, V>, i: nat): (r: nat)
    requires i < |body|
    ensures r <= i && body[r].val == body[i].val
    ensures forall j :: 0 <= j < r ==> body[j].val != body[i].val
  {
    var vs := Values(body);
    var r := IndexOf(vs, body[i].val).value;
    assert forall j :: 0 <= j < r ==> vs[..r][j] == vs[j];
    r
  }

  /** `_member_map_`: every declared name, aliases included, with the member it names. */
  function MemberMap<K, V(==)>(body: Dict<K, V>): (r: Dict<K, K>)
    ensures Keys(r) == Keys(body)
    ensures forall i :: 0 <= i < |r| ==> r[i].val == body[CanonicalIndex(body, i)].key
  {
    seq(|body|, i requires 0 <= i < |body| => Item(body[i].key, body[CanonicalIndex(body, i)].key))
  }

  /** `cls[name]`, that is `cls.__getitem__(name)`: the member called `name`, or
      KeyError. */
  function Lookup<K(==), V(==)>(body: Dict<K, V>, name: K): (r: Result<K>)
    ensures r.Err? <==> name !in Keys(body)
    ensures r.Err? ==> r.error == KeyError
  {
    match Get(MemberMap(body), name)
    case None => Err(KeyError)
    case Some(m) => Ok(m)
  }

  /** `member.value`. */
  function ValueOf<K(==), V(==)>(body: Dict<K, V>, member: K): V
    requires member in Keys(body)
  {
    Get(body, member).value
  }

  /** Looking a name up gives the first-declared name carrying its value, and that
      member's value is the one written for the name. */
  lemma LookupFirst<K, V>(body: Dict<K, V>, i: nat)
    requires WellFormed(body) && i < |body|
    ensures Lookup(body, body[i].key) == Ok(body[CanonicalIndex(body, i)].key)
    ensures ValueOf(body, body[CanonicalIndex(body, i)].key) == body[i].val
  {
    var mm := MemberMap(body);
    assert WellFormed(mm) by {
      assert Keys(mm) == Keys(body);
    }
    GetAt(mm, i);
    GetAt(body, CanonicalIndex(body, i));
  }

  /** `[m for name, m in cls._member_map_.items() if m.value == v]`: the member
      carrying `v`, once for every name declared with `v`. */
  function MembersWithValue<K(==), V(==)>(body: Dict<K, V>, v: V): (r: seq<K>)
    ensures forall j :: 0 <= j < |r| ==> r[j] in Keys(body)
    decreases |body|
  {
    MembersWithValueFrom(body, 0, v)
  }

  /** The same comprehension over the names from position `i` on. */
  function MembersWithValueFrom<K(==), V(==)>(body: Dict<K, V>, i: nat, v: V): (r: seq<K>)
    requires i <= |body|
    ensures forall j :: 0 <= j < |r| ==> r[j] in Keys(body)
    decreases |body| - i
  {
    if i == |body| then []
    else
      var c := CanonicalIndex(body, i);
      assert Keys(body)[c] == body[c].key;
      (if body[i].val == v then [body[c].key] else []) + MembersWithValueFrom(body, i + 1, v)
  }

  /** Every member found for `v` carries `v`, and the members found are all the same
      one: the first name declared with `v`. */
  lemma {:induction false} MembersWithValueFromSame<K, V>(body: Dict<K, V>, i: nat, v: V, c: nat)
    requires WellFormed(body) && i <= |body| && c < |body| && body[c].val == v
    ensures forall j :: 0 <= j < |MembersWithValueFrom(body, i, v)| ==>
      MembersWithValueFrom(body, i, v)[j] == body[CanonicalIndex(body, c)].key
    decreases |body| - i
  {
    if i < |body| {
      MembersWithValueFromSame(body, i + 1, v, c);
      if body[i].val == v {
        var a := CanonicalIndex(body, i);
        var b := CanonicalIndex(body, c);
        assert a == b;
      }
    }
  }

  /** How many times the member is found: once per name declared with `v`. */
  function CountValue<K, V(==)>(body: Dict<K, V>, i: nat, v: V): nat
    requires i <= |body|
    decreases |body| - i
  {
    if i == |body| then 0 else (if body[i].val == v then 1 else 0) + CountValue(body, i + 1, v)
  }

  lemma {:induction false} MembersWithValueFromCount<K, V>(body: Dict<K, V>, i: nat, v: V)
    requires i <= |body|
    ensures |MembersWithValueFrom(body, i, v)| == CountValue(body, i, v)
    decreases |body| - i
  {
    if i < |body| {
      MembersWithValueFromCount(body, i + 1, v);
    }
  }

  /** The first position carrying a name's value is its canonical position. */
  lemma CanonicalIndexIs<K, V>(body: Dict<K, V>, i: nat, c: nat)
    requires c <= i < |body| && body[c].val == body[i].val
    requires forall j :: 0 <= j < c ==> body[j].val != body[i].val
    ensures CanonicalIndex(body, i) == c
  {
    var r := CanonicalIndex(body, i);
    assert r >= c;
  }

  /** The comprehension finds nothing exactly when no name is declared with `v`. */
  lemma {:induction false} MembersWithValueFromEmpty<K, V>(body: Dict<K, V>, i: nat, v: V)
    requires i <= |body|
    ensures MembersWithValueFrom(body, i, v) == [] <==> forall j :: i <= j < |body| ==> body[j].val != v
    decreases |body| - i
  {
    if i < |body| {
      MembersWithValueFromEmpty(body, i + 1, v);
    }
  }

  /** Every member the comprehension finds carries the value asked for. */
  lemma MembersWithValueCarry<K, V>(body: Dict<K, V>, v: V)
    requires WellFormed(body)
    ensures forall m :: m in MembersWithValue(body, v) ==> m in Keys(body) && ValueOf(body, m) == v
  {
    var r := MembersWithValue(body, v);
    if r != [] {
      MembersWithValueFromEmpty(body, 0, v);
      var c :| 0 <= c < |body| && body[c].val == v;
      MembersWithValueFromSame(body, 0, v, c);
      var k := CanonicalIndex(body, c);
      GetAt(body, k);
      forall m | m in r
        ensures m in Keys(body) && ValueOf(body, m) == v
      {
        var j :| 0 <= j < |r| && r[j] == m;
      }
    }
  }

  /** A name whose value first occurs at position `c` is an alias of the name there. */
  lemma AliasOf<K, V>(body: Dict<K, V>, i: nat, c: nat)
    requires WellFormed(body)
    requires c <= i < |body| && body[c].val == body[i].val
    requires forall j :: 0 <= j < c ==> body[j].val != body[i].val
    ensures Lookup(body, body[i].key) == Ok(body[c].key)
  {
    CanonicalIndexIs(body, i, c);
    LookupFirst(body, i);
  }

  /** `for name, m in cls._member_map_.items(): if p(m.value): return name`: the first
      name, aliases included, whose member's value satisfies `p`. An alias reaches the
      value through its member, which carries the very value written for the alias. */
  function FirstNameWhere<K, V(==)>(body: Dict<K, V>, p: V -> bool): (r: Option<K>)
    ensures r.None? <==> forall i :: 0 <= i < |body| ==> !p(body[i].val)
    ensures r.Some? ==> exists i :: (0 <= i < |body| && body[i].key == r.value && p(body[i].val)
      && forall j :: 0 <= j < i ==> !p(body[j].val))
  {
    FirstNameWhereFrom(body, p, 0)
  }

  /** The same search over the names from position `i` on. */
  function FirstNameWhereFrom<K, V(==)>(body: Dict<K, V>, p: V -> bool, i: nat): (r: Option<K>)
    requires i <= |body|
    ensures r.None? <==> forall j :: i <= j < |body| ==> !p(body[j].val)
    ensures r.Some? ==> exists k :: (i <= k < |body| && body[k].key == r.value && p(body[k].val)
      && forall j :: i <= j < k ==> !p(body[j].val))
    decreases |body| - i
  {
    if i == |body| then None
    else if p(body[CanonicalIndex(body, i)].val) then Some(body[i].key)
    else FirstNameWhereFrom(body, p, i + 1)
  }

  /** Two tests that agree on every declared value find the same name. */
  lemma {:induction false} FirstNameWhereFromSame<K, V>(body: Dict<K, V>, p: V -> bool, q: V -> bool, i: nat)
    requires i <= |body|
    requires forall j :: i <= j < |body| ==> p(body[j].val) == q(body[j].val)
    ensures FirstNameWhereFrom(body, p, i) == FirstNameWhereFrom(body, q, i)
    decreases |body| - i
  {
    if i < |body| {
      FirstNameWhereFromSame(body, p, q, i + 1);
    }
  }

  /** An alias is never the name found: the member's own name, declared earlier with
      the same value, is met first. */
  lemma FirstNameWhereNotAlias<K, V>(body: Dict<K, V>, p: V -> bool, c: nat, i: nat)
    requires WellFormed(body) && c < i < |body| && body[c].val == body[i].val
    ensures FirstNameWhere(body, p) != Some(body[i].key)
  {
    assert Keys(body)[i] == body[i].key;
  }

  /** A value the first name satisfies finds the first name. */
  lemma FirstNameWhereFirst<K, V>(body: Dict<K, V>, p: V -> bool)
    requires |body| > 0 && p(body[0].val)
    ensures FirstNameWhere(body, p) == Some(body[0].key)
  {
    assert CanonicalIndex(body, 0) == 0;
  }
}
