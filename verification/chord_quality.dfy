/** The last step of naming a chord, after `_get_chord_quality_from_formula` in
    src/chord_visualisation/core/chord_name.py, and the whole of
    `indentify_chord_quality`: every combination of one interval per note is sorted by
    interval value and compared with the `ChordFormula` tuples. */
module ChordQuality {
  import opened Wrappers
  import opened Seqs
  import opened OrderedDict
  import opened Enums
  import opened Chromatic
  import opened Diagrams
  import opened Fretboard
  import opened Chords
  import opened ChordShapes
  import opened ChordNames

  /** `m.value` for every name declared in `Intervals`. */
  function IntervalValue(m: Interval): int {
    match m
    case P1 => 0
    case m2 => 3
    case M2 => 4
    case m3 => 3
    case M3 => 4
    case P4 => 5
    case TT => 6
    case d5 => 6
    case P5 => 7
    case m6 => 8
    case M6 => 9
    case A5 => 8
    case m7 => 10
    case M7 => 11
    case P8 => 12
    case M9 => 14
  }

  /** `IntervalValue` reads the class body: each name carries the value written for it. */
  lemma IntervalValueDeclared(b: Dict<Interval, int>)
    requires b == IntervalBody
    ensures forall i :: 0 <= i < |b| ==> IntervalValue(b[i].key) == b[i].val
  {
  }

  /** The intervals found for a distance all have that distance as their value. */
  lemma IntervalsForValue(dist: int)
    ensures forall m :: m in IntervalsFor(dist) ==> IntervalValue(m) == dist
  {
    var b := IntervalBody;
    IntervalsForDistance(dist);
    IntervalValueDeclared(b);
    forall m | m in IntervalsFor(dist)
      ensures IntervalValue(m) == dist
    {
      var i :| 0 <= i < |b| && b[i] == Item(m, Get(b, m).value);
    }
  }

  /** Below the octave, every distance but one and two half-steps is the value of some
      name of `Intervals`. */
  lemma DeclaredBelowOctave(vs: seq<int>, dist: int)
    requires vs == Values(IntervalBody) && 0 <= dist < 12
    ensures dist in vs <==> dist != 1 && dist != 2
  {
    if dist != 1 && dist != 2 {
      var at := [0, 0, 0, 1, 2, 5, 6, 8, 9, 10, 12, 13];
      assert vs[at[dist]] == dist;
    }
  }

  /** Below the octave, no interval is found only for one and two half-steps. */
  lemma IntervalsForEmpty(dist: int)
    requires 0 <= dist < 12
    ensures IntervalsFor(dist) == [] <==> dist == 1 || dist == 2
  {
    IntervalsForDistance(dist);
    DeclaredBelowOctave(Values(IntervalBody), dist);
  }

  /** `tuple(sorted(c, key=lambda x: x.value))`, read as values. */
  function SortedValues(c: seq<Interval>): (r: seq<int>)
    ensures NonDecreasing(r)
    ensures multiset(r) == multiset(MapKey(c, IntervalValue))
  {
    SortByKeys(c, IntervalValue);
    MapKey(SortBy(c, IntervalValue), IntervalValue)
  }

  /** The inner loop of `_get_chord_quality_from_formula`, with the comparison made on
      values: the first formula name, aliases included, whose tuple is the sorted
      combination. */
  function FormulaMatch(formulas: Dict<string, seq<int>>, c: seq<Interval>): (r: Option<string>)
    ensures r.None? <==> forall i :: 0 <= i < |formulas| ==> formulas[i].val != SortedValues(c)
    ensures r.Some? ==> exists i :: (0 <= i < |formulas| && formulas[i].key == r.value
      && formulas[i].val == SortedValues(c)
      && forall j :: 0 <= j < i ==> formulas[j].val != SortedValues(c))
  {
    FirstNameWhere(formulas, (f: seq<int>) => f == SortedValues(c))
  }

  /** `_get_chord_quality_from_formula(intervals)` with the comparison made on values:
      over the combinations of one interval per entry, in `itertools.product` order,
      the first formula any of them matches; None when none does. */
  function Quality(formulas: Dict<string, seq<int>>, iv: Dict<string, seq<Interval>>): (r: Option<string>)
    ensures r.None? <==> forall c :: c in Product(Values(iv)) ==> FormulaMatch(formulas, c).None?
    ensures r.Some? ==> exists k :: (0 <= k < |Product(Values(iv))|
      && FormulaMatch(formulas, Product(Values(iv))[k]) == r
      && forall j :: 0 <= j < k ==> FormulaMatch(formulas, Product(Values(iv))[j]).None?)
  {
    FirstSome(Product(Values(iv)), (c: seq<Interval>) => FormulaMatch(formulas, c))
  }

  /** Every formula tuple of `ChordFormula` rises. */
  predicate FormulasRise(formulas: Dict<string, seq<int>>) {
    forall i :: 0 <= i < |formulas| ==> NonDecreasing(formulas[i].val)
  }

  /** A combination matches a rising formula exactly when it holds the formula's
      values, as often, whatever order it was chosen in. */
  lemma FormulaMatchValues(formulas: Dict<string, seq<int>>, c: seq<Interval>)
    requires FormulasRise(formulas)
    ensures FormulaMatch(formulas, c) ==
      FirstNameWhere(formulas, (f: seq<int>) => multiset(f) == multiset(MapKey(c, IntervalValue)))
  {
    var vs := MapKey(c, IntervalValue);
    forall j | 0 <= j < |formulas|
      ensures (formulas[j].val == SortedValues(c)) == (multiset(formulas[j].val) == multiset(vs))
    {
      SortByKeys(c, IntervalValue);
      SortedKeysMatch(c, IntervalValue, formulas[j].val);
    }
    FirstNameWhereFromSame(formulas, (f: seq<int>) => f == SortedValues(c),
      (f: seq<int>) => multiset(f) == multiset(vs), 0);
  }

  /** Soundness: a quality found names a formula whose values some combination holds,
      as often. */
  lemma QualitySound(formulas: Dict<string, seq<int>>, iv: Dict<string, seq<Interval>>)
    requires FormulasRise(formulas) && Quality(formulas, iv).Some?
    ensures exists c, i :: (c in Product(Values(iv)) && 0 <= i < |formulas|
      && formulas[i].key == Quality(formulas, iv).value
      && multiset(formulas[i].val) == multiset(MapKey(c, IntervalValue)))
  {
    var ps := Product(Values(iv));
    var q := Quality(formulas, iv);
    var k :| 0 <= k < |ps| && FormulaMatch(formulas, ps[k]) == q;
    var c := ps[k];
    var r := FormulaMatch(formulas, c);
    assert r == q;
    var sv := SortedValues(c);
    var i :| 0 <= i < |formulas| && formulas[i].key == r.value && formulas[i].val == sv;
    assert c in ps;
    assert multiset(formulas[i].val) == multiset(MapKey(c, IntervalValue));
    assert formulas[i].key == q.value;
  }

  /** Completeness: when some combination holds the values of some formula, a quality
      is found. */
  lemma QualityComplete(formulas: Dict<string, seq<int>>, iv: Dict<string, seq<Interval>>, c: seq<Interval>, i: nat)
    requires FormulasRise(formulas) && c in Product(Values(iv)) && i < |formulas|
    requires multiset(formulas[i].val) == multiset(MapKey(c, IntervalValue))
    ensures Quality(formulas, iv).Some?
  {
    SortedKeysMatch(c, IntervalValue, formulas[i].val);
    SortByKeys(c, IntervalValue);
    assert formulas[i].val == SortedValues(c);
  }

  /** An entry with no intervals (a note one or two half-steps above the root) leaves
      nothing to combine, and no quality is found. */
  lemma QualityEmptyEntry(formulas: Dict<string, seq<int>>, iv: Dict<string, seq<Interval>>)
    requires [] in Values(iv)
    ensures Quality(formulas, iv) == None
  {
    var ls := Values(iv);
    forall c | c in Product(ls)
      ensures false
    {
      ProductMember(ls, c);
    }
  }

  /** The test that a formula tuple holds the values `vs`, as often, in any order. */
  function SameValues(vs: seq<int>): seq<int> -> bool {
    (f: seq<int>) => multiset(f) == multiset(vs)
  }

  /** When every combination holds the same values `vs`, as often, the quality is the
      first formula holding them; the order of the combinations does not matter. */
  lemma QualityOfValues(formulas: Dict<string, seq<int>>, iv: Dict<string, seq<Interval>>, vs: seq<int>)
    requires FormulasRise(formulas) && |Product(Values(iv))| > 0
    requires forall c :: c in Product(Values(iv)) ==> multiset(MapKey(c, IntervalValue)) == multiset(vs)
    ensures Quality(formulas, iv) == FirstNameWhere(formulas, SameValues(vs))
  {
    var ps := Product(Values(iv));
    var target := FirstNameWhere(formulas, SameValues(vs));
    forall k | 0 <= k < |ps|
      ensures FormulaMatch(formulas, ps[k]) == target
    {
      assert ps[k] in ps;
      FormulaMatchValues(formulas, ps[k]);
      FirstNameWhereFromSame(formulas,
        (f: seq<int>) => multiset(f) == multiset(MapKey(ps[k], IntervalValue)), SameValues(vs), 0);
    }
    if target.None? {
      assert Quality(formulas, iv).None?;
    } else {
      assert FormulaMatch(formulas, ps[0]).Some?;
    }
  }

  /** A Python value as `==` sees it in the comparison: an `int` from a `ChordFormula`
      tuple, or a member of `Intervals`. A member of a plain `Enum` is equal to no int. */
  datatype PyValue = IntValue(n: int) | MemberValue(m: Interval)

  /** A formula tuple of ints, as Python values. */
  function IntValues(f: seq<int>): (r: seq<PyValue>)
    ensures |r| == |f| && forall i :: 0 <= i < |f| ==> r[i] == IntValue(f[i])
  {
    seq(|f|, i requires 0 <= i < |f| => IntValue(f[i]))
  }

  /** A combination of `Intervals` members, as Python values. */
  function MemberValues(c: seq<Interval>): (r: seq<PyValue>)
    ensures |r| == |c| && forall i :: 0 <= i < |c| ==> r[i] == MemberValue(c[i])
  {
    seq(|c|, i requires 0 <= i < |c| => MemberValue(c[i]))
  }

  /** The inner loop of `_get_chord_quality_from_formula` as written: the formula's
      tuple of ints against the tuple of sorted members. */
  function FormulaMatchAsWritten(formulas: Dict<string, seq<int>>, c: seq<Interval>): (r: Option<string>)
    ensures r.None? <==> forall i :: 0 <= i < |formulas| ==>
      IntValues(formulas[i].val) != MemberValues(SortBy(c, IntervalValue))
  {
    FirstNameWhere(formulas, (f: seq<int>) => IntValues(f) == MemberValues(SortBy(c, IntervalValue)))
  }

  /** `_get_chord_quality_from_formula(intervals)` as written. */
  function QualityAsWritten(formulas: Dict<string, seq<int>>, iv: Dict<string, seq<Interval>>): (r: Option<string>)
    ensures r.None? <==> forall c :: c in Product(Values(iv)) ==> FormulaMatchAsWritten(formulas, c).None?
  {
    FirstSome(Product(Values(iv)), (c: seq<Interval>) => FormulaMatchAsWritten(formulas, c))
  }

  /** As written, the matcher never names a chord: a non-empty tuple of ints never
      equals a tuple of members, whatever the intervals. */
  lemma QualityAsWrittenNone(formulas: Dict<string, seq<int>>, iv: Dict<string, seq<Interval>>)
    requires forall i :: 0 <= i < |formulas| ==> |formulas[i].val| > 0
    ensures QualityAsWritten(formulas, iv) == None
  {
    forall c, i | 0 <= i < |formulas|
      ensures IntValues(formulas[i].val) != MemberValues(SortBy(c, IntervalValue))
    {
      var a, b := IntValues(formulas[i].val), MemberValues(SortBy(c, IntervalValue));
      if |a| == |b| {
        assert a[0] != b[0];
      }
    }
  }

  /** What `_create_intervals` leaves for the notes `ns` of a chord and their
      distances `dists` above `root`, as `CreateIntervals` states it. */
  ghost predicate IntervalsCreated(root: string, ns: seq<string>, dists: seq<int>, iv: Dict<string, seq<Interval>>)
    requires 0 < |ns| == |dists|
  {
    root in Notes && (forall i :: 0 <= i < |ns| ==> ns[i] in Notes && dists[i] == Distance(root, ns[i])) &&
    WellFormed(iv) && Keys(iv) == Dedup([root] + ns) &&
    Get(iv, root) == Some(RootEntry(root, ns, dists, |ns|)) &&
    forall k :: k in ns && k != root ==> Get(iv, k) == Some(IntervalsFor(dists[LastIndexOf(ns, k)]))
  }

  /** Each entry of the intervals dict holds the intervals carrying its note's distance
      above the root, and is empty exactly when that distance is one or two half-steps. */
  lemma EntryValues(root: string, ns: seq<string>, dists: seq<int>, iv: Dict<string, seq<Interval>>, j: nat)
    requires 0 < |ns| == |dists| && IntervalsCreated(root, ns, dists, iv) && j < |iv|
    ensures iv[j].key == root || iv[j].key in ns
    ensures iv[j].key in Notes
    ensures forall m :: m in iv[j].val ==> IntervalValue(m) == Distance(root, iv[j].key)
    ensures iv[j].val == [] <==> Distance(root, iv[j].key) == 1 || Distance(root, iv[j].key) == 2
  {
    var k := iv[j].key;
    GetAt(iv, j);
    assert Keys(iv)[j] == k;
    assert k in [root] + ns;
    if k == root {
      DistanceSelf(root);
      var last := |ns| - 1;
      if ns[last] == root {
        IntervalsForValue(0);
        IntervalsForEmpty(0);
      } else {
        assert iv[j].val == [P1];
      }
    } else {
      assert k in ns;
      var l := LastIndexOf(ns, k);
      IntervalsForValue(dists[l]);
      IntervalsForEmpty(dists[l]);
    }
  }

  /** The distinct names sounded, the root first, are names of the chromatic scale. */
  predicate SoundedInNotes(root: string, ns: seq<string>) {
    forall i :: 0 <= i < |Dedup([root] + ns)| ==> Dedup([root] + ns)[i] in Notes
  }

  lemma DedupInNotes(root: string, ns: seq<string>)
    requires root in Notes && forall i :: 0 <= i < |ns| ==> ns[i] in Notes
    ensures SoundedInNotes(root, ns)
  {
    var xs := [root] + ns;
    forall i | 0 <= i < |Dedup(xs)|
      ensures Dedup(xs)[i] in Notes
    {
      var j :| 0 <= j < |xs| && xs[j] == Dedup(xs)[i];
      if j > 0 {
        assert xs[j] == ns[j - 1];
      }
    }
  }

  /** Some name sounds one or two semitones above the root, where `Intervals` declares
      no name. */
  predicate HasGap(root: string, ns: seq<string>)
    requires root in Notes && forall i :: 0 <= i < |ns| ==> ns[i] in Notes
  {
    exists i :: 0 <= i < |ns| && (Distance(root, ns[i]) == 1 || Distance(root, ns[i]) == 2)
  }

  /** The quality a chord should get, read off its notes directly: None when a note
      lies one or two half-steps above the root, since no interval carries those
      distances; otherwise the first formula, in declaration order, whose values are
      the distances above the root of the distinct names sounded, the root included,
      or None when no formula has those values. */
  function ExpectedQuality(formulas: Dict<string, seq<int>>, root: string, ns: seq<string>): (r: Option<string>)
    requires root in Notes && forall i :: 0 <= i < |ns| ==> ns[i] in Notes
    ensures (exists i :: 0 <= i < |ns| && (Distance(root, ns[i]) == 1 || Distance(root, ns[i]) == 2)) ==> r == None
    ensures r.Some? ==> SoundedInNotes(root, ns) && exists i :: (0 <= i < |formulas| && formulas[i].key == r.value
      && multiset(formulas[i].val) == multiset(DistancesFrom(root, Dedup([root] + ns))))
  {
    DedupInNotes(root, ns);
    if HasGap(root, ns) then None
    else FirstNameWhere(formulas, SameValues(DistancesFrom(root, Dedup([root] + ns))))
  }

  /** A note one or two half-steps above the root gets no intervals, so the matcher
      finds nothing. */
  lemma CreatedQualityGap(formulas: Dict<string, seq<int>>, root: string, ns: seq<string>, dists: seq<int>,
                          iv: Dict<string, seq<Interval>>, i: nat)
    requires 0 < |ns| == |dists| && IntervalsCreated(root, ns, dists, iv)
    requires i < |ns| && (Distance(root, ns[i]) == 1 || Distance(root, ns[i]) == 2)
    ensures Quality(formulas, iv) == None
  {
    var k := ns[i];
    DistanceSelf(root);
    assert ([root] + ns)[i + 1] == k;
    assert k in Keys(iv);
    var j :| 0 <= j < |iv| && Keys(iv)[j] == k;
    EntryValues(root, ns, dists, iv, j);
    assert Values(iv)[j] == [];
    QualityEmptyEntry(formulas, iv);
  }

  /** When every list is non-empty and holds only elements of key `vs[j]`, there are
      combinations, and each has the keys `vs`. */
  lemma ProductKeys<T(!new)>(ls: seq<seq<T>>, key: T -> int, vs: seq<int>)
    requires |ls| == |vs|
    requires forall j :: 0 <= j < |ls| ==> ls[j] != [] && forall x :: x in ls[j] ==> key(x) == vs[j]
    ensures |Product(ls)| > 0
    ensures forall c :: c in Product(ls) ==> MapKey(c, key) == vs
  {
    var c0 := seq(|ls|, j requires 0 <= j < |ls| => ls[j][0]);
    ProductMember(ls, c0);
    forall c | c in Product(ls)
      ensures MapKey(c, key) == vs
    {
      ProductMember(ls, c);
    }
  }

  /** Every entry of the dict `_create_intervals` builds for a chord without a note one
      or two half-steps above the root holds intervals, all of its note's distance. */
  lemma EntriesCarryDistances(root: string, ns: seq<string>, dists: seq<int>, iv: Dict<string, seq<Interval>>)
    requires 0 < |ns| == |dists| && IntervalsCreated(root, ns, dists, iv)
    requires forall i :: 0 <= i < |ns| ==> Distance(root, ns[i]) != 1 && Distance(root, ns[i]) != 2
    ensures SoundedInNotes(root, ns)
    ensures var vs := DistancesFrom(root, Dedup([root] + ns));
      |Values(iv)| == |vs| &&
      forall j :: 0 <= j < |iv| ==> Values(iv)[j] != [] && forall m :: m in Values(iv)[j] ==> IntervalValue(m) == vs[j]
  {
    DedupInNotes(root, ns);
    DistanceSelf(root);
    forall j | 0 <= j < |iv|
      ensures iv[j].val != [] && forall m :: m in iv[j].val ==> IntervalValue(m) == Distance(root, Keys(iv)[j])
    {
      EntryValues(root, ns, dists, iv, j);
      if iv[j].key != root {
        var l :| 0 <= l < |ns| && ns[l] == iv[j].key;
      }
    }
  }

  /** Otherwise every entry holds intervals, every combination holds exactly the
      distances of the distinct names sounded, and the matcher finds the first formula
      holding those. */
  lemma CreatedQualityValues(formulas: Dict<string, seq<int>>, root: string, ns: seq<string>, dists: seq<int>,
                             iv: Dict<string, seq<Interval>>)
    requires FormulasRise(formulas)
    requires 0 < |ns| == |dists| && IntervalsCreated(root, ns, dists, iv)
    requires forall i :: 0 <= i < |ns| ==> Distance(root, ns[i]) != 1 && Distance(root, ns[i]) != 2
    ensures SoundedInNotes(root, ns)
    ensures Quality(formulas, iv) == FirstNameWhere(formulas, SameValues(DistancesFrom(root, Dedup([root] + ns))))
  {
    EntriesCarryDistances(root, ns, dists, iv);
    var vs := DistancesFrom(root, Dedup([root] + ns));
    ProductKeys(Values(iv), IntervalValue, vs);
    QualityOfValues(formulas, iv, vs);
  }

  /** The tuples of `ChordFormula` rise. */
  lemma FormulaBodyRises()
    ensures FormulasRise(FormulaBody)
  {
    var b := FormulaBody;
    FormulaShapes(b);
  }

  /** With no notes the dict is empty, its only combination is the empty one, and no
      formula is empty. */
  lemma QualityNoNotes(formulas: Dict<string, seq<int>>)
    requires forall i :: 0 <= i < |formulas| ==> |formulas[i].val| > 0
    ensures Quality(formulas, []) == None
  {
    var iv: Dict<string, seq<Interval>> := [];
    assert Product(Values(iv)) == [[]];
    assert SortedValues([]) == [];
  }

  /** Whatever the notes, the quality found in the dict `_create_intervals` builds is
      the one read off the notes directly. */
  lemma CreatedQuality(formulas: Dict<string, seq<int>>, root: string, ns: seq<string>, dists: seq<int>,
                       iv: Dict<string, seq<Interval>>)
    requires FormulasRise(formulas)
    requires 0 < |ns| == |dists| && IntervalsCreated(root, ns, dists, iv)
    ensures Quality(formulas, iv) == ExpectedQuality(formulas, root, ns)
  {
    if HasGap(root, ns) {
      var i :| 0 <= i < |ns| && (Distance(root, ns[i]) == 1 || Distance(root, ns[i]) == 2);
      CreatedQualityGap(formulas, root, ns, dists, iv, i);
      assert ExpectedQuality(formulas, root, ns) == None;
    } else {
      CreatedQualityValues(formulas, root, ns, dists, iv);
      assert ExpectedQuality(formulas, root, ns) ==
        FirstNameWhere(formulas, SameValues(DistancesFrom(root, Dedup([root] + ns))));
    }
  }

  /** `indentify_chord_quality(diagram)`, with the comparison made on values: the open
      strings join the shape, every position is named on the fretboard, each name is
      measured above the root, the intervals dict is built and the formulas are
      matched. The root's name is the one `identify_root_note` found (a parameter
      here). The fretboard rejects a position with its error, and the distance map a
      name outside the chromatic scale. With no positions no quality is found;
      otherwise the quality is the one read off the notes directly. */
  method IdentifyChordQuality(fb: FretboardNotes, rootName: string, d: ChordDiagram) returns (r: Result<Option<string>>)
    ensures var ns := OtherNotes(fb, AddOpenStrings(d).shape);
      r.Ok? <==> ns.Ok? && CalculateDistances(rootName, ns.value).Ok?
    ensures var ns := OtherNotes(fb, AddOpenStrings(d).shape);
      r.Err? ==> r.error == if ns.Err? then ns.error else CalculateDistances(rootName, ns.value).error
    ensures var ns := OtherNotes(fb, AddOpenStrings(d).shape);
      r.Ok? && |ns.value| == 0 ==> r.value == None
    ensures var ns := OtherNotes(fb, AddOpenStrings(d).shape);
      r.Ok? && |ns.value| > 0 ==>
        rootName in Notes && (forall i :: 0 <= i < |ns.value| ==> ns.value[i] in Notes) &&
        r.value == ExpectedQuality(FormulaBody, rootName, ns.value)
  {
    var e := AddOpenStrings(d);
    var notes :- OtherNotes(fb, e.shape);
    var dists :- CalculateDistances(rootName, notes);
    var iv := CreateIntervals(rootName, notes, dists);
    PrefixAll(notes);
    PipelineQuality(rootName, notes, dists, iv);
    r := Ok(Quality(FormulaBody, iv));
  }

  /** `indentify_chord_quality(diagram)` as written: the same steps, with the matcher
      comparing the formulas' ints with members. It fails exactly where the corrected
      method fails, with the same error, and otherwise never finds a quality. */
  method IdentifyChordQualityAsWritten(fb: FretboardNotes, rootName: string, d: ChordDiagram)
    returns (r: Result<Option<string>>)
    ensures var ns := OtherNotes(fb, AddOpenStrings(d).shape);
      r.Ok? <==> ns.Ok? && CalculateDistances(rootName, ns.value).Ok?
    ensures var ns := OtherNotes(fb, AddOpenStrings(d).shape);
      r.Err? ==> r.error == if ns.Err? then ns.error else CalculateDistances(rootName, ns.value).error
    ensures r.Ok? ==> r.value == None
  {
    var e := AddOpenStrings(d);
    var notes :- OtherNotes(fb, e.shape);
    var dists :- CalculateDistances(rootName, notes);
    var iv := CreateIntervals(rootName, notes, dists);
    BodyAsWrittenNone(iv);
    r := Ok(QualityAsWritten(FormulaBody, iv));
  }

  /** Against the declared formulas, the matcher as written finds nothing in any dict. */
  lemma BodyAsWrittenNone(iv: Dict<string, seq<Interval>>)
    ensures QualityAsWritten(FormulaBody, iv) == None
  {
    FormulaShapes(FormulaBody);
    QualityAsWrittenNone(FormulaBody, iv);
  }

  /** The quality of the dict `_create_intervals` builds from the distances
      `_calculate_distances` measured: none without notes, otherwise the one read off
      the notes directly. */
  lemma PipelineQuality(root: string, notes: seq<string>, dists: seq<int>, iv: Dict<string, seq<Interval>>)
    requires |dists| == |notes|
    requires |notes| > 0 ==> root in Notes
    requires forall i :: 0 <= i < |notes| ==> notes[i] in Notes && dists[i] == Distance(root, notes[i])
    requires |notes| == 0 ==> iv == []
    requires |notes| > 0 ==> Keys(iv) == Dedup([root] + notes) && Get(iv, root) == Some(RootEntry(root, notes, dists, |notes|))
    requires forall k :: k in notes && k != root ==> Get(iv, k) == Some(IntervalsFor(dists[LastIndexOf(notes, k)]))
    requires WellFormed(iv)
    ensures |notes| == 0 ==> Quality(FormulaBody, iv) == None
    ensures |notes| > 0 ==> Quality(FormulaBody, iv) == ExpectedQuality(FormulaBody, root, notes)
  {
    var formulas := FormulaBody;
    FormulaBodyRises();
    if |notes| == 0 {
      FormulaShapes(formulas);
      QualityNoNotes(formulas);
    } else {
      assert IntervalsCreated(root, notes, dists, iv);
      CreatedQuality(formulas, root, notes, dists, iv);
    }
  }

  /** `sus2` is never the quality found: it is an alias of `major`, whose name comes
      first with the same tuple. */
  lemma ExpectedNeverSus2(root: string, ns: seq<string>)
    requires root in Notes && forall i :: 0 <= i < |ns| ==> ns[i] in Notes
    ensures ExpectedQuality(FormulaBody, root, ns) != Some("sus2")
  {
    var b := FormulaBody;
    FormulaBodyWellFormed();
    DedupInNotes(root, ns);
    assert b[5].key == "sus2" && b[0].val == b[5].val;
    FirstNameWhereNotAlias(b, SameValues(DistancesFrom(root, Dedup([root] + ns))), 0, 5);
  }

  /** A formula holding a value that the distances do not is never the one matched. */
  lemma NoMatchWithout(formulas: Dict<string, seq<int>>, vs: seq<int>, i: nat, x: int)
    requires WellFormed(formulas) && i < |formulas| && x in formulas[i].val && x !in vs
    ensures FirstNameWhere(formulas, SameValues(vs)) != Some(formulas[i].key)
  {
    forall j | 0 <= j < |formulas| && formulas[j].key == formulas[i].key
      ensures !SameValues(vs)(formulas[j].val)
    {
      assert Keys(formulas)[i] == Keys(formulas)[j];
      assert x in multiset(formulas[j].val);
    }
  }

  /** `major9` and `dom9` are never the quality found: their tuples hold the ninth, 14
      half-steps, and no distance above the root reaches the octave. */
  lemma ExpectedNoNinths(root: string, ns: seq<string>)
    requires root in Notes && forall i :: 0 <= i < |ns| ==> ns[i] in Notes
    ensures ExpectedQuality(FormulaBody, root, ns) != Some("major9")
    ensures ExpectedQuality(FormulaBody, root, ns) != Some("dom9")
  {
    var b := FormulaBody;
    FormulaBodyWellFormed();
    DedupInNotes(root, ns);
    var vs := DistancesFrom(root, Dedup([root] + ns));
    assert b[11].key == "major9" && b[11].val[4] == 14;
    assert b[12].key == "dom9" && b[12].val[4] == 14;
    NoMatchWithout(b, vs, 11, 14);
    NoMatchWithout(b, vs, 12, 14);
  }

  /** The C major triad open on C, E and G: the dict `_create_intervals` builds for it
      is matched by `major` once values are compared, and by nothing when members are
      compared with ints as the source does. */
  lemma MajorTriadFinding(iv: Dict<string, seq<Interval>>)
    requires iv == [Item("C", [P1]), Item("E", [M2, M2]), Item("G", [P5])]
    ensures Quality(FormulaBody, iv) == Some("major")
    ensures QualityAsWritten(FormulaBody, iv) == None
  {
    var b := FormulaBody;
    var vs := [0, 4, 7];
    FormulaShapes(b);
    FormulaBodyRises();
    ProductKeys(Values(iv), IntervalValue, vs);
    QualityOfValues(b, iv, vs);
    FirstNameWhereFirst(b, SameValues(vs));
    QualityAsWrittenNone(b, iv);
  }
}
