/** The pitch model of core/chromatic.py: twelve sharp-spelled pitch names and,
    for a root, the dict sending every name to its semitone distance above the root. */
module Chromatic {
  import opened Wrappers
  import opened Seqs
  import opened OrderedDict

  /** `ChromaticScale.notes`, the chromatic octave starting at A. */
  const Notes: seq<string> := ["A", "A#", "B", "C", "C#", "D", "D#", "E", "F", "F#", "G", "G#"]

  /** A pitch class as its position in `Notes`. */
  type Pitch = p: int | 0 <= p < 12

  lemma NotesDistinct()
    ensures Distinct(Notes)
  {
  }

  /** The pitch class of a standard name. */
  function PitchOf(name: string): Pitch
    requires name in Notes
  {
    IndexOf(Notes, name).value
  }

  /** Naming a pitch class and taking the pitch class of the name are inverse. */
  lemma PitchOfNotes(p: Pitch)
    ensures Notes[p] in Notes && PitchOf(Notes[p]) == p
  {
    NotesDistinct();
    IndexOfDistinct(Notes, p);
  }

  /** The name at a name's pitch class is the name itself. */
  lemma NameOfPitch(name: string)
    requires name in Notes
    ensures Notes[PitchOf(name)] == name
  {
  }

  /** Semitones from `root` up to the nearest `note` at or above it. */
  function Distance(root: string, note: string): Pitch
    requires root in Notes && note in Notes
  {
    CyclicOffset(PitchOf(root), PitchOf(note), 12)
  }

  /** Moving `f` semitones up from pitch `o` lands `f % 12` semitones above it. */
  lemma ShiftDistance(o: Pitch, f: int)
    ensures 0 <= (o + f) % 12 < 12
    ensures CyclicOffset(o, (o + f) % 12, 12) == f % 12
  {
    var q := f % 12;
    var k := f / 12;
    assert f == 12 * k + q;
    assert o + f == (o + q) + 12 * k;
    assert (o + f) % 12 == (o + q) % 12;
    if o + q >= 12 {
      assert (o + q) % 12 == o + q - 12;
    }
  }

  /** The name `fret` semitones above pitch class `o`, the octave folded away. */
  function NameAbove(o: Pitch, fret: int): (r: string)
    ensures r in Notes
    ensures Distance(Notes[o], r) == fret % 12
  {
    ShiftDistance(o, fret);
    PitchOfNotes(o);
    PitchOfNotes((o + fret) % 12);
    Notes[(o + fret) % 12]
  }

  /** Two names at the same distance above a root are the same name. */
  lemma DistanceInjective(root: string, a: string, b: string)
    requires root in Notes && a in Notes && b in Notes
    requires Distance(root, a) == Distance(root, b)
    ensures a == b
  {
    CyclicOffsetInjective(PitchOf(root), PitchOf(a), PitchOf(b), 12);
    NameOfPitch(a);
    NameOfPitch(b);
  }

  /** `ChromaticScale(root).scale`: the dict built by zipping the notes rotated to
      start at `root` with `range(12)`. A root that is not a standard name makes
      `list.index` raise. The keys run from the root up to G#, then wrap round from A. */
  function Scale(root: string): (r: Result<Dict<string, int>>)
    ensures r.Ok? <==> root in Notes
    ensures r.Err? ==> r.error == ValueError
    ensures r.Ok? ==> |r.value| == 12
    ensures r.Ok? ==> forall i :: 0 <= i < 12 - PitchOf(root) ==> r.value[i].key == Notes[PitchOf(root) + i]
    ensures r.Ok? ==> forall i :: 12 - PitchOf(root) <= i < 12 ==> r.value[i].key == Notes[PitchOf(root) + i - 12]
    ensures r.Ok? ==> forall i :: 0 <= i < |r.value| ==> r.value[i].val == i
    ensures r.Ok? ==> WellFormed(r.value)
  {
    if root !in Notes then Err(ValueError)
    else
      var s := PitchOf(root);
      var d := ZipWithPositions(Rotate(Notes, s));
      assert WellFormed(d) by {
        NotesDistinct();
        RotateDistinct(Notes, s);
      }
      assert forall i :: 0 <= i < |d| ==> d[i].key == Keys(d)[i];
      Ok(d)
  }

  /** Going up from the note at pitch `s`, the note at pitch `k` comes at its cyclic offset. */
  lemma RotatedNotesAt(s: nat, k: nat)
    requires s < 12 && k < 12
    ensures Get(ZipWithPositions(Rotate(Notes, s)), Notes[k]) == Some(CyclicOffset(s, k, 12))
  {
    NotesDistinct();
    RotatedPositions(Notes, s, k);
  }

  /** Every scale is the rotated octave zipped with its positions. */
  lemma ScaleIsRotation(root: string)
    requires root in Notes
    ensures Scale(root).Ok?
    ensures Scale(root).value == ZipWithPositions(Rotate(Notes, PitchOf(root)))
  {
  }

  /** One instance of the distance law. */
  lemma ScaleDistanceOf(root: string, n: string)
    requires root in Notes && n in Notes
    ensures Scale(root).Ok?
    ensures Get(Scale(root).value, n) == Some(Distance(root, n))
  {
    ScaleIsRotation(root);
    var k := PitchOf(n);
    assert Notes[k] == n;
    RotatedNotesAt(PitchOf(root), k);
  }

  /** The distance law: in the scale of `root`, every name maps to its distance
      above the root. */
  lemma ScaleDistances(root: string)
    requires root in Notes
    ensures Scale(root).Ok?
    ensures forall n :: n in Notes ==> Get(Scale(root).value, n) == Some(Distance(root, n))
  {
    forall n | n in Notes
      ensures Get(Scale(root).value, n) == Some(Distance(root, n))
    {
      ScaleDistanceOf(root, n);
    }
  }

  /** The scale starts at its root, which lies at distance 0. */
  lemma ScaleStartsAtRoot(root: string)
    requires root in Notes
    ensures Scale(root).Ok?
    ensures Keys(Scale(root).value)[0] == root
    ensures Get(Scale(root).value, root) == Some(0)
  {
    ScaleDistanceOf(root, root);
  }

  /** The keys of every scale are the twelve names, each once. */
  lemma ScaleKeys(root: string)
    requires root in Notes
    ensures Scale(root).Ok?
    ensures multiset(Keys(Scale(root).value)) == multiset(Notes)
    ensures forall n :: n in Keys(Scale(root).value) <==> n in Notes
  {
    var ks := Keys(Scale(root).value);
    RotateMultiset(Notes, PitchOf(root));
    forall n
      ensures n in ks <==> n in Notes
    {
      assert n in ks <==> n in multiset(ks);
      assert n in Notes <==> n in multiset(Notes);
    }
  }

  /** The values 0..11 of every scale, in order. */
  const Octave: seq<int> := Range(12)

  /** Selecting from the scale of `root` picks a name exactly when its distance above
      the root is listed. */
  lemma SelectFromScale(root: string, ds: seq<int>)
    requires root in Notes
    ensures forall n :: n in Select(Scale(root).value, ds) <==> n in Notes && Distance(root, n) in ds
  {
    var d := Scale(root).value;
    ScaleKeys(root);
    forall n
      ensures n in Select(d, ds) <==> n in Notes && Distance(root, n) in ds
    {
      SelectByGet(d, ds, n);
      if n in Notes {
        ScaleDistanceOf(root, n);
      }
    }
  }

  /** The picks come in increasing distance above the root: rotated chromatic order. */
  lemma SelectFromScaleOrdered(root: string, ds: seq<int>)
    requires root in Notes
    ensures var r := Select(Scale(root).value, ds);
      forall a, b :: 0 <= a < b < |r| ==>
        (r[a] in Notes && r[b] in Notes && Distance(root, r[a]) < Distance(root, r[b]))
  {
    var d := Scale(root).value;
    var r := Select(d, ds);
    ScaleIsRotation(root);
    ZipIncreasing(Rotate(Notes, PitchOf(root)));
    SelectIncreasing(d, ds);
    ScaleKeys(root);
    forall a, b | 0 <= a < b < |r|
      ensures r[a] in Notes && r[b] in Notes && Distance(root, r[a]) < Distance(root, r[b])
    {
      ScaleDistanceOf(root, r[a]);
      ScaleDistanceOf(root, r[b]);
    }
  }

  /** How many names are picked depends on the listed distances only, not on the root. */
  lemma SelectFromScaleLength(root: string, ds: seq<int>)
    requires root in Notes
    ensures |Select(Scale(root).value, ds)| == |FilterIn(Octave, ds)|
  {
    var d := Scale(root).value;
    ScaleIsRotation(root);
    ZipValues(Rotate(Notes, PitchOf(root)));
    SelectItemsLength(d, ds);
  }

  /** The distances above `root` of a list of names. */
  function DistancesFrom(root: string, ns: seq<string>): (r: seq<int>)
    requires root in Notes && forall i :: 0 <= i < |ns| ==> ns[i] in Notes
    ensures |r| == |ns| && forall i :: 0 <= i < |ns| ==> r[i] == Distance(root, ns[i])
  {
    seq(|ns|, i requires 0 <= i < |ns| => Distance(root, ns[i]))
  }

  /** A distance below the octave is a value of the scale. */
  lemma InOctave(x: int)
    ensures x in Octave <==> 0 <= x < 12
  {
    if 0 <= x < 12 {
      assert Octave[x] == x;
    }
  }

  /** The name `x` semitones above a root lies at distance `x` from it. */
  lemma NameAboveRoot(root: string, x: int)
    requires root in Notes && 0 <= x < 12
    ensures Distance(root, NameAbove(PitchOf(root), x)) == x
  {
    var o := PitchOf(root);
    var n := NameAbove(o, x);
    WrapOnce(x, 12);
    WrapOnce(o + x, 12);
    PitchOfNotes((o + x) % 12);
    assert PitchOf(n) == (o + x) % 12;
  }

  /** Every pick is a name whose distance above the root is listed. */
  lemma PicksListed(root: string, ds: seq<int>)
    requires root in Notes
    ensures var r := Select(Scale(root).value, ds);
      forall i :: 0 <= i < |r| ==> r[i] in Notes && Distance(root, r[i]) in ds
  {
    SelectFromScale(root, ds);
  }

  /** A listed distance below the octave picks the name that far above the root. */
  lemma NameAbovePicked(root: string, ds: seq<int>, x: int)
    requires root in Notes && 0 <= x < 12 && x in ds
    ensures NameAbove(PitchOf(root), x) in Select(Scale(root).value, ds)
    ensures Distance(root, NameAbove(PitchOf(root), x)) == x
  {
    SelectFromScale(root, ds);
    NameAboveRoot(root, x);
  }

  /** The names picked from the scale of `root`, read back as distances, are the picked
      distances below the octave, in order. */
  lemma SelectFromScaleDistances(root: string, ds: seq<int>)
    requires root in Notes && Increasing(ds)
    ensures var r := Select(Scale(root).value, ds);
      (forall i :: 0 <= i < |r| ==> r[i] in Notes) && DistancesFrom(root, r) == FilterIn(ds, Octave)
  {
    var r := Select(Scale(root).value, ds);
    var fs := FilterIn(ds, Octave);
    PicksListed(root, ds);
    SelectFromScaleOrdered(root, ds);
    var dr := DistancesFrom(root, r);
    forall x
      ensures x in dr <==> x in fs
    {
      InOctave(x);
      if x in fs {
        NameAbovePicked(root, ds, x);
        var i :| 0 <= i < |r| && r[i] == NameAbove(PitchOf(root), x);
        assert dr[i] == x;
      }
    }
    IncreasingUnique(dr, fs);
  }

  /** Picking an increasing list of distances from the scale of `root` spells those of
      them below the octave upward from the root, in order. */
  lemma SelectFromScaleSpelled(root: string, ds: seq<int>)
    requires root in Notes && Increasing(ds)
    ensures var r := Select(Scale(root).value, ds); var fs := FilterIn(ds, Octave);
      |r| == |fs| && forall i :: 0 <= i < |r| ==> 0 <= fs[i] < 12 && r[i] == NameAbove(PitchOf(root), fs[i])
  {
    var r := Select(Scale(root).value, ds);
    var fs := FilterIn(ds, Octave);
    SelectFromScaleDistances(root, ds);
    forall i | 0 <= i < |r|
      ensures 0 <= fs[i] < 12 && r[i] == NameAbove(PitchOf(root), fs[i])
    {
      assert fs[i] in fs;
      InOctave(fs[i]);
      NameAboveRoot(root, fs[i]);
      assert Distance(root, r[i]) == fs[i];
      DistanceInjective(root, r[i], NameAbove(PitchOf(root), fs[i]));
    }
  }
}
