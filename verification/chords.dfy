/** core/chords.py: the `Intervals` and `ChordFormula` enums and the notes of a chord
    (`Chords.notes`): the names of the root's chromatic scale whose distance above the
    root is one of the formula's intervals. */
module Chords {
  import opened Wrappers
  import opened Seqs
  import opened OrderedDict
  import opened Enums
  import opened Chromatic

  /** The names declared in the body of `Intervals`. */
  datatype Interval = P1 | m2 | M2 | m3 | M3 | P4 | TT | d5 | P5 | m6 | M6 | A5 | m7 | M7 | P8 | M9

  /** The class body of `Intervals`, in declaration order: name and half-steps. Names
      repeating an earlier value (`m3`, `M3`, `d5`, `A5`) become aliases. */
  const IntervalBody: Dict<Interval, int> := [
    Item(P1, 0), Item(m2, 3), Item(M2, 4), Item(m3, 3),
    Item(M3, 4), Item(P4, 5), Item(TT, 6), Item(d5, 6),
    Item(P5, 7), Item(m6, 8), Item(M6, 9), Item(A5, 8),
    Item(m7, 10), Item(M7, 11), Item(P8, 12), Item(M9, 14)]

  /** The class body of `ChordFormula`: each formula as the tuple of the `.value`s of
      the intervals it is written with (`major` is `P1, M3, P5`, `sus2` is `P1, M2, P5`,
      `major9` adds `M9`, and so on). */
  const FormulaBody: Dict<string, seq<int>> := [
    Item("major", [0, 4, 7]),
    Item("minor", [0, 3, 7]),
    Item("aug", [0, 3, 8]),
    Item("dim", [0, 3, 6]),
    Item("sus4", [0, 5, 7]),
    Item("sus2", [0, 4, 7]),
    Item("major7", [0, 4, 7, 11]),
    Item("dom7", [0, 4, 7, 10]),
    Item("minor7", [0, 3, 7, 10]),
    Item("minor7_flat5", [0, 3, 6, 10]),
    Item("dim7", [0, 3, 6, 9]),
    Item("major9", [0, 4, 7, 11, 14]),
    Item("dom9", [0, 4, 7, 10, 14])]

  lemma IntervalBodyWellFormed()
    ensures WellFormed(IntervalBody)
  {
  }

  lemma FormulaBodyWellFormed()
    ensures WellFormed(FormulaBody)
  {
  }

  /** For each name of `Intervals`, the position of the first name declared with its
      value: positions 3 (`m3`), 4 (`M3`), 7 (`d5`) and 11 (`A5`) go back to 1 (`m2`),
      2 (`M2`), 6 (`TT`) and 9 (`m6`); every other name is first. */
  const IntervalFirst: seq<nat> := [0, 1, 2, 1, 2, 5, 6, 6, 8, 9, 10, 9, 12, 13, 14, 15]

  /** Enum aliasing in `Intervals`: each name is canonicalised to the position listed in
      `IntervalFirst`. */
  lemma IntervalCanonical(b: Dict<Interval, int>)
    requires b == IntervalBody
    ensures forall i :: 0 <= i < |b| ==> CanonicalIndex(b, i) == IntervalFirst[i]
  {
    forall i | 0 <= i < |b|
      ensures CanonicalIndex(b, i) == IntervalFirst[i]
    {
      CanonicalIndexIs(b, i, IntervalFirst[i]);
    }
  }

  /** `Intervals[name]` for every declared name: the member declared first with its
      value, so `m3` names `m2`, `M3` names `M2`, `d5` names `TT` and `A5` names `m6`. */
  lemma IntervalLookup(b: Dict<Interval, int>)
    requires b == IntervalBody
    ensures forall i :: 0 <= i < |b| ==> Lookup(b, b[i].key) == Ok(b[IntervalFirst[i]].key)
  {
    IntervalBodyWellFormed();
    IntervalCanonical(b);
    forall i | 0 <= i < |b|
      ensures Lookup(b, b[i].key) == Ok(b[IntervalFirst[i]].key)
    {
      LookupFirst(b, i);
    }
  }

  /** Every `ChordFormula` tuple has at least three intervals, starts at the unison and
      rises strictly. */
  lemma FormulaShapes(b: Dict<string, seq<int>>)
    requires b == FormulaBody
    ensures forall i :: 0 <= i < |b| ==> |b[i].val| >= 3 && b[i].val[0] == 0 && Increasing(b[i].val)
  {
  }

  /** `sus2` repeats the tuple of `major` and so is an alias of it; every other formula
      name is a member of its own. */
  lemma FormulaCanonical(b: Dict<string, seq<int>>)
    requires b == FormulaBody
    ensures forall i :: 0 <= i < |b| ==> CanonicalIndex(b, i) == if i == 5 then 0 else i
    ensures Lookup(b, "sus2") == Ok("major")
  {
    forall i | 0 <= i < |b|
      ensures CanonicalIndex(b, i) == if i == 5 then 0 else i
    {
      CanonicalIndexIs(b, i, if i == 5 then 0 else i);
    }
    FormulaBodyWellFormed();
    AliasOf(b, 5, 0);
  }

  /** `ChordFormula.__getitem__(quality).value`: KeyError for an undeclared name; for an
      alias, the member it names carries the very tuple written for the alias. */
  function FormulaOf(quality: string): (r: Result<seq<int>>)
    ensures r.Err? <==> quality !in Keys(FormulaBody)
    ensures r.Err? ==> r.error == KeyError
    ensures r.Ok? ==> Get(FormulaBody, quality) == Some(r.value)
  {
    match Lookup(FormulaBody, quality)
    case Err(e) => Err(e)
    case Ok(m) =>
      FormulaBodyWellFormed();
      var i := IndexOf(Keys(FormulaBody), quality).value;
      LookupFirst(FormulaBody, i);
      GetAt(FormulaBody, i);
      Ok(ValueOf(FormulaBody, m))
  }

  /** The distance from a name to itself is zero. */
  lemma DistanceSelf(key: string)
    requires key in Notes
    ensures Distance(key, key) == 0
  {
  }

  /** `Chords(key, quality).notes`: the constructor builds the chromatic scale of `key`
      (ValueError for a name outside it), then the property looks the formula up
      (KeyError) and keeps the names of the scale whose distance is in the formula. The
      result is every name whose distance above the key is in the formula, in rising
      distance, starting with the key itself. */
  function ChordNotes(key: string, quality: string): (r: Result<seq<string>>)
    ensures r.Err? <==> key !in Notes || quality !in Keys(FormulaBody)
    ensures r.Err? ==> r.error == if key !in Notes then ValueError else KeyError
    ensures r.Ok? ==> forall n :: n in r.value <==>
      n in Notes && Distance(key, n) in Get(FormulaBody, quality).value
    ensures r.Ok? ==> forall a, b :: 0 <= a < b < |r.value| ==>
      r.value[a] in Notes && r.value[b] in Notes && Distance(key, r.value[a]) < Distance(key, r.value[b])
    ensures r.Ok? ==> |r.value| > 0 && r.value[0] == key
  {
    match Scale(key)
    case Err(e) => Err(e)
    case Ok(scale) =>
      match FormulaOf(quality)
      case Err(e) => Err(e)
      case Ok(ranges) =>
        var ns := Select(scale, ranges);
        SelectFromScale(key, ranges);
        SelectFromScaleOrdered(key, ranges);
        ChordNotesStartAtKey(key, quality, ranges, ns);
        Ok(ns)
  }

  /** Every formula holds the unison, so the key is picked, and nothing comes before it. */
  lemma ChordNotesStartAtKey(key: string, quality: string, ranges: seq<int>, ns: seq<string>)
    requires key in Notes && Get(FormulaBody, quality) == Some(ranges)
    requires forall n :: n in ns <==> n in Notes && Distance(key, n) in ranges
    requires forall a, b :: 0 <= a < b < |ns| ==>
      ns[a] in Notes && ns[b] in Notes && Distance(key, ns[a]) < Distance(key, ns[b])
    ensures |ns| > 0 && ns[0] == key
  {
    var fb := FormulaBody;
    FormulaShapes(fb);
    var i :| 0 <= i < |fb| && fb[i] == Item(quality, ranges);
    assert ranges[0] == 0;
    DistanceSelf(key);
    assert key in ns;
    var j :| 0 <= j < |ns| && ns[j] == key;
    NearestFirst(key, ns, j);
    DistanceInjective(key, ns[0], key);
  }

  /** In a list of names rising in distance above `key`, the first is the nearest. */
  lemma NearestFirst(key: string, ns: seq<string>, j: nat)
    requires key in Notes && j < |ns|
    requires forall i :: 0 <= i < |ns| ==> ns[i] in Notes
    requires forall a, b :: 0 <= a < b < |ns| ==> Distance(key, ns[a]) < Distance(key, ns[b])
    ensures Distance(key, ns[0]) <= Distance(key, ns[j])
  {
    if j > 0 {
      assert Distance(key, ns[0]) < Distance(key, ns[j]);
    }
  }

  /** Intervals of an octave or more never match a distance of the chromatic scale: two
      formulas that agree below the octave give the same notes for every key. */
  lemma SameBelowOctave(key: string, q: string, q': string)
    requires q in Keys(FormulaBody) && q' in Keys(FormulaBody)
    requires forall v :: 0 <= v < 12 ==>
      (v in Get(FormulaBody, q).value <==> v in Get(FormulaBody, q').value)
    ensures ChordNotes(key, q) == ChordNotes(key, q')
  {
    if key in Notes {
      var d := Scale(key).value;
      SelectItemsSame(d, FormulaOf(q).value, FormulaOf(q').value);
    }
  }

  /** A ninth chord has the notes of its seventh chord: `major9` and `dom9` add only
      `M9` (14 half-steps) to `major7` and `dom7`. */
  lemma NinthsAsSevenths(key: string, q9: string, q7: string)
    requires (q9 == "major9" && q7 == "major7") || (q9 == "dom9" && q7 == "dom7")
    ensures ChordNotes(key, q9) == ChordNotes(key, q7)
  {
    var b := FormulaBody;
    FormulaBodyWellFormed();
    var i, j := if q9 == "major9" then 11 else 12, if q9 == "major9" then 6 else 7;
    assert b[i].key == q9 && b[j].key == q7;
    assert b[i].val == b[j].val + [14];
    GetAt(b, i);
    GetAt(b, j);
    SameBelowOctave(key, q9, q7);
  }

  /** The notes of a chord spelled from its formula: the intervals below the octave, in
      order, each counted up from the key. */
  lemma ChordNotesSpelled(key: string, quality: string)
    requires key in Notes && quality in Keys(FormulaBody)
    ensures ChordNotes(key, quality).Ok?
    ensures var r := ChordNotes(key, quality).value;
      var fs := FilterIn(Get(FormulaBody, quality).value, Octave);
      |r| == |fs| && forall i :: 0 <= i < |r| ==> r[i] == NameAbove(PitchOf(key), fs[i])
  {
    var fb := FormulaBody;
    FormulaShapes(fb);
    var ranges := Get(fb, quality).value;
    var i :| 0 <= i < |fb| && fb[i] == Item(quality, ranges);
    SelectFromScaleSpelled(key, ranges);
  }

  /** `sus2` has the tuple of `major`, so a sus2 chord has the notes of the major chord. */
  lemma SusTwoAsMajor(key: string, qs: string, qm: string)
    requires qs == "sus2" && qm == "major"
    ensures ChordNotes(key, qs) == ChordNotes(key, qm)
  {
    var b := FormulaBody;
    FormulaBodyWellFormed();
    assert b[5].key == qs && b[0].key == qm && b[5].val == b[0].val;
    GetAt(b, 5);
    GetAt(b, 0);
    SameBelowOctave(key, qs, qm);
  }
}
