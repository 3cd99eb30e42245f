/** `FretboardNotes` of core/fretboard.py: which note sounds at a (string, fret)
    position under a tuning, and the reverse search from a note to its positions. */
module Fretboard {
  import opened Wrappers
  import opened Seqs
  import opened OrderedDict
  import opened Chromatic
  import opened Diagrams

  /** The default tuning, string 1 (high E) first. */
  const StandardTuning: seq<string> := ["E", "B", "G", "D", "A", "E"]

  /** A `FretboardNotes` once `__init__` has run: the tuning, the highest fret, and the
      table `_populate_all_strings` builds from open-note name to the notes of its frets. */
  datatype FretboardNotes = FretboardNotes(tuning: seq<string>, maxFrets: int, stringNotes: Dict<string, seq<string>>)

  /** Names repeat every twelve semitones. */
  lemma NameAbovePeriodic(o: Pitch, fret: int)
    ensures NameAbove(o, fret + 12) == NameAbove(o, fret)
  {
    assert (o + fret + 12) % 12 == (o + fret) % 12;
  }

  /** `chromatic_scale[(chromatic_scale.index(open) + fret) % 12]`: the name sounding
      `fret` semitones above a chromatic `open` note. */
  function NoteAt(open: string, fret: int): (r: string)
    requires open in Notes
    ensures r in Notes
    ensures Distance(open, r) == fret % 12
  {
    NameOfPitch(open);
    NameAbove(PitchOf(open), fret)
  }

  /** The notes of frets `0..maxFrets` of a string tuned to pitch class `o`. */
  function Row(o: Pitch, maxFrets: int): (r: seq<string>)
    ensures |r| == if maxFrets < 0 then 0 else maxFrets + 1
    ensures forall f :: 0 <= f < |r| ==> r[f] == NameAbove(o, f)
  {
    seq(if maxFrets < 0 then 0 else maxFrets + 1, f => NameAbove(o, f))
  }

  /** One pass of the outer loop of `_populate_all_strings`: the row of `open`. The first
      `index` call raises ValueError for a name outside the chromatic scale, but only
      when there is a fret to compute. */
  function RowOf(open: string, maxFrets: int): (r: Result<seq<string>>)
    ensures r.Ok? <==> maxFrets < 0 || open in Notes
    ensures r.Err? ==> r.error == ValueError
    ensures r.Ok? ==> |r.value| == if maxFrets < 0 then 0 else maxFrets + 1
  {
    if maxFrets < 0 then Ok([])
    else if open !in Notes then Err(ValueError)
    else Ok(Row(PitchOf(open), maxFrets))
  }

  /** `_populate_all_strings`: the tuning's open notes in first-occurrence order (a
      repeated open note reassigns its existing key), each with its row. */
  function Populate(tuning: seq<string>, maxFrets: int): (r: Result<Dict<string, seq<string>>>)
    ensures r.Ok? <==> maxFrets < 0 || forall i :: 0 <= i < |tuning| ==> tuning[i] in Notes
    ensures r.Err? ==> r.error == ValueError
    ensures r.Ok? ==> Keys(r.value) == Dedup(tuning) && WellFormed(r.value)
    ensures r.Ok? ==> forall k :: k in Keys(r.value) ==>
      Get(r.value, k).Some? && RowOf(k, maxFrets) == Ok(Get(r.value, k).value)
    decreases |tuning|
  {
    if |tuning| == 0 then Ok([])
    else
      var prefix := tuning[..|tuning| - 1];
      var open := tuning[|tuning| - 1];
      assert tuning == prefix + [open];
      match Populate(prefix, maxFrets)
      case Err(e) => Err(e)
      case Ok(d) =>
        match RowOf(open, maxFrets)
        case Err(e) => Err(e)
        case Ok(row) => Ok(Put(d, open, row))
  }

  /** `FretboardNotes(tuning, max_frets)`. */
  function New(tuning: seq<string>, maxFrets: int): (r: Result<FretboardNotes>)
    ensures r.Ok? <==> maxFrets < 0 || forall i :: 0 <= i < |tuning| ==> tuning[i] in Notes
    ensures r.Err? ==> r.error == ValueError
    ensures r.Ok? ==> r.value.tuning == tuning && r.value.maxFrets == maxFrets
  {
    var d :- Populate(tuning, maxFrets);
    Ok(FretboardNotes(tuning, maxFrets, d))
  }

  lemma StandardTuningChromatic()
    ensures forall i :: 0 <= i < |StandardTuning| ==> StandardTuning[i] in Notes
  {
  }

  /** `FretboardNotes()`: standard tuning, 13 frets. */
  function Default(): (r: FretboardNotes)
    ensures r.tuning == StandardTuning && r.maxFrets == 13
  {
    StandardTuningChromatic();
    New(StandardTuning, 13).value
  }

  /** The default fretboard is the one the constructor builds for its default arguments. */
  lemma DefaultIsNew()
    ensures New(StandardTuning, 13) == Ok(Default())
  {
    StandardTuningChromatic();
  }

  /** `get_note(string, fret)`: the open note is `tuning[string - 1]` with Python's
      indexing, so `string` may run from `1 - len(tuning)` (counting from the end) up to
      `len(tuning)`, and anything else raises IndexError. */
  function GetNote(fb: FretboardNotes, stringNo: int, fret: int): (r: Result<string>)
    ensures (r.Err? && r.error == IndexError) <==> !(1 - |fb.tuning| <= stringNo <= |fb.tuning|)
    ensures r.Err? ==> r.error in {IndexError, ValueError}
    ensures r.Ok? ==> r.value in Notes
    ensures r.Ok? && 1 <= stringNo ==> fb.tuning[stringNo - 1] in Notes
    ensures r.Ok? && 1 <= stringNo ==> Distance(fb.tuning[stringNo - 1], r.value) == fret % 12
    ensures r.Ok? && stringNo <= 0 ==> fb.tuning[|fb.tuning| + stringNo - 1] in Notes
    ensures r.Ok? && stringNo <= 0 ==>
      Distance(fb.tuning[|fb.tuning| + stringNo - 1], r.value) == fret % 12
    ensures 1 <= stringNo <= |fb.tuning| ==> (r.Ok? <==> fb.tuning[stringNo - 1] in Notes)
    ensures 1 - |fb.tuning| <= stringNo <= 0 ==> (r.Ok? <==> fb.tuning[|fb.tuning| + stringNo - 1] in Notes)
  {
    match PyIndex(fb.tuning, stringNo - 1)
    case Err(e) => Err(e)
    case Ok(open) =>
      if open !in Notes then Err(ValueError) else Ok(NoteAt(open, fret))
  }

  /** A string number at or below 0 counts from the end of the tuning: it plays the
      same note as the string `len(tuning)` further up. */
  lemma GetNoteWraps(fb: FretboardNotes, stringNo: int, fret: int)
    requires 1 - |fb.tuning| <= stringNo <= 0
    ensures GetNote(fb, stringNo, fret) == GetNote(fb, stringNo + |fb.tuning|, fret)
  {
    var open := fb.tuning[|fb.tuning| + stringNo - 1];
    assert PyIndex(fb.tuning, stringNo - 1) == Ok(open);
    assert PyIndex(fb.tuning, stringNo + |fb.tuning| - 1) == Ok(open);
  }

  /** A note repeats every twelve frets. */
  lemma GetNotePeriodic(fb: FretboardNotes, stringNo: int, fret: int)
    ensures GetNote(fb, stringNo, fret + 12) == GetNote(fb, stringNo, fret)
  {
    match PyIndex(fb.tuning, stringNo - 1)
    case Err(_) =>
    case Ok(open) =>
      if open in Notes {
        NameAbovePeriodic(PitchOf(open), fret);
      }
  }

  /** On a constructed fretboard, `get_note` reads the row `_populate_all_strings` stored
      for the string's open note. */
  lemma GetNoteFromTable(tuning: seq<string>, maxFrets: int, stringNo: int, fret: int)
    requires New(tuning, maxFrets).Ok?
    requires 1 <= stringNo <= |tuning| && 0 <= fret <= maxFrets
    ensures var fb := New(tuning, maxFrets).value;
      var row := Get(fb.stringNotes, tuning[stringNo - 1]);
      row.Some? && fret < |row.value| && GetNote(fb, stringNo, fret) == Ok(row.value[fret])
  {
    var fb := New(tuning, maxFrets).value;
    var open := tuning[stringNo - 1];
    assert open in Dedup(tuning);
    assert open in Keys(fb.stringNotes);
  }

  /** The worked value in the fretboard tests: under standard tuning (the default
      fretboard's), string 3 (G) at fret 3 sounds A#. */
  lemma StandardGetNote(fb: FretboardNotes)
    requires fb.tuning == StandardTuning
    ensures GetNote(fb, 3, 3) == Ok("A#")
  {
    GetNoteAt(fb, 3, 3, 10);
    NameAboveSharp();
  }

  /** Three semitones above G is A#. */
  lemma NameAboveSharp()
    ensures NameAbove(10, 3) == "A#"
  {
    assert (10 + 3) % 12 == 1;
  }

  /** A string whose open note is at pitch `o` sounds, at fret `fret`, the name `fret`
      semitones above it. */
  lemma GetNoteAt(fb: FretboardNotes, stringNo: int, fret: int, o: Pitch)
    requires 1 <= stringNo <= |fb.tuning| && fb.tuning[stringNo - 1] == Notes[o]
    ensures GetNote(fb, stringNo, fret) == Ok(NameAbove(o, fret))
  {
    PitchOfNotes(o);
  }

  /** `[idx for idx, i in enumerate(row) if i == note]`: the frets of a row sounding `note`. */
  function FretsOf(row: seq<string>, note: string): (r: seq<int>)
    ensures forall f :: f in r <==> 0 <= f < |row| && row[f] == note
    ensures Increasing(r)
  {
    if |row| == 0 then []
    else
      var init := FretsOf(row[..|row| - 1], note);
      var last := |row| - 1;
      if row[last] == note then
        assert forall i :: 0 <= i < |init| ==> init[i] in init;
        IncreasingSnoc(init, last);
        init + [last]
      else init
  }

  /** `[(s, f) for f in frets]` */
  function Tag(s: int, frets: seq<int>): (r: seq<FingerPosition>)
    ensures |r| == |frets|
    ensures forall i :: 0 <= i < |frets| ==> r[i] == FingerPosition(s, frets[i])
  {
    seq(|frets|, i requires 0 <= i < |frets| => FingerPosition(s, frets[i]))
  }

  lemma TagMember(s: int, frets: seq<int>, p: FingerPosition)
    ensures p in Tag(s, frets) <==> p.stringNo == s && p.fret in frets
  {
    if p.stringNo == s && p.fret in frets {
      var i :| 0 <= i < |frets| && frets[i] == p.fret;
      assert Tag(s, frets)[i] == p;
    }
  }

  /** The loop of `get_fret_position_from_note` from the dict entry numbered `i` on:
      entry `i` is reported as string `i + 1`, and the frets of the first entry are
      reported a second time as string 6. */
  function PositionsFrom(d: Dict<string, seq<string>>, i: nat, note: string): seq<FingerPosition>
    decreases |d|
  {
    if |d| == 0 then []
    else
      var frets := FretsOf(d[0].val, note);
      var here := if i == 0 then Tag(1, frets) + Tag(6, frets) else Tag(i + 1, frets);
      here + PositionsFrom(d[1..], i + 1, note)
  }

  /** `get_fret_position_from_note(note)`. */
  function FretPositions(fb: FretboardNotes, note: string): seq<FingerPosition> {
    PositionsFrom(fb.stringNotes, 0, note)
  }

  lemma {:induction false} PositionsFromMember(d: Dict<string, seq<string>>, i: nat, note: string, p: FingerPosition)
    ensures p in PositionsFrom(d, i, note) <==>
      (i + 1 <= p.stringNo <= i + |d| && p.fret in FretsOf(d[p.stringNo - 1 - i].val, note))
      || (i == 0 && |d| > 0 && p.stringNo == 6 && p.fret in FretsOf(d[0].val, note))
    decreases |d|
  {
    if |d| > 0 {
      var frets := FretsOf(d[0].val, note);
      TagMember(i + 1, frets, p);
      TagMember(6, frets, p);
      PositionsFromMember(d[1..], i + 1, note, p);
      if i + 2 <= p.stringNo <= i + |d| {
        assert d[1..][p.stringNo - 1 - (i + 1)] == d[p.stringNo - 1 - i];
      }
    }
  }

  /** What the reverse search reports, for any tuning: the frets of the `k`-th distinct
      open note sounding `note`, as string `k`, and those of the first open note again
      as string 6. */
  lemma FretPositionsMember(fb: FretboardNotes, note: string, p: FingerPosition)
    ensures var d := fb.stringNotes;
      p in FretPositions(fb, note) <==>
        (1 <= p.stringNo <= |d| && 0 <= p.fret < |d[p.stringNo - 1].val|
          && d[p.stringNo - 1].val[p.fret] == note)
        || (|d| > 0 && p.stringNo == 6 && 0 <= p.fret < |d[0].val| && d[0].val[p.fret] == note)
  {
    PositionsFromMember(fb.stringNotes, 0, note, p);
  }

  /** A string tuned to `open` sounds `note` at fret `f`. */
  predicate OpenSounds(open: string, f: int, note: string) {
    open in Notes && NoteAt(open, f) == note
  }

  /** `get_note` on a string counted from 1 reads that string's open note. */
  lemma GetNoteOpen(fb: FretboardNotes, stringNo: int, fret: int, note: string)
    requires 1 <= stringNo <= |fb.tuning|
    ensures GetNote(fb, stringNo, fret) == Ok(note) <==> OpenSounds(fb.tuning[stringNo - 1], fret, note)
  {
  }

  /** Entry `i` of the table of a constructed fretboard: the `i`-th distinct open note
      with its row. */
  lemma EntryRow(tuning: seq<string>, maxFrets: int, i: nat)
    requires New(tuning, maxFrets).Ok?
    requires i < |Dedup(tuning)|
    ensures var d := New(tuning, maxFrets).value.stringNotes;
      |d| == |Dedup(tuning)| && d[i].key == Dedup(tuning)[i] && RowOf(d[i].key, maxFrets) == Ok(d[i].val)
  {
    var d := New(tuning, maxFrets).value.stringNotes;
    assert Keys(d)[i] == d[i].key;
    GetAt(d, i);
  }

  /** Fret `f` of entry `i` sounds `note` exactly when `f` is on the board and the
      entry's open note sounds `note` there. */
  lemma EntrySounds(tuning: seq<string>, maxFrets: int, i: nat, f: int, note: string)
    requires New(tuning, maxFrets).Ok?
    requires i < |Dedup(tuning)|
    ensures var d := New(tuning, maxFrets).value.stringNotes;
      i < |d| &&
      ((0 <= f < |d[i].val| && d[i].val[f] == note) <==> 0 <= f <= maxFrets && OpenSounds(Dedup(tuning)[i], f, note))
  {
    EntryRow(tuning, maxFrets, i);
  }

  /** The reverse search on any constructed fretboard: string `k` stands for the `k`-th
      distinct open note, and string 6 for the first one, whatever the tuning says. */
  lemma ConstructedPositions(tuning: seq<string>, maxFrets: int, note: string, p: FingerPosition)
    requires New(tuning, maxFrets).Ok?
    ensures var ks := Dedup(tuning);
      p in FretPositions(New(tuning, maxFrets).value, note) <==>
        0 <= p.fret <= maxFrets &&
        ((1 <= p.stringNo <= |ks| && OpenSounds(ks[p.stringNo - 1], p.fret, note))
          || (|ks| > 0 && p.stringNo == 6 && OpenSounds(ks[0], p.fret, note)))
  {
    var fb := New(tuning, maxFrets).value;
    var ks := Dedup(tuning);
    FretPositionsMember(fb, note, p);
    if 1 <= p.stringNo <= |ks| {
      EntrySounds(tuning, maxFrets, p.stringNo - 1, p.fret, note);
    }
    if |ks| > 0 {
      EntrySounds(tuning, maxFrets, 0, p.fret, note);
    }
  }

  /** Under a six-string tuning whose outer strings agree and whose first five strings
      differ, the reverse search is sound and complete: it reports a position exactly
      when that position is on the board and `get_note` gives `note`. */
  lemma OuterPositions(tuning: seq<string>, maxFrets: int, note: string, p: FingerPosition)
    requires OuterStringsEqual(tuning)
    ensures New(tuning, maxFrets).Ok?
    ensures var fb := New(tuning, maxFrets).value;
      p in FretPositions(fb, note) <==>
        1 <= p.stringNo <= 6 && 0 <= p.fret <= maxFrets && GetNote(fb, p.stringNo, p.fret) == Ok(note)
  {
    var fb := New(tuning, maxFrets).value;
    OuterDedup(tuning);
    ConstructedPositions(tuning, maxFrets, note, p);
    OuterGetNote(fb, note, p);
  }

  /** With equal outer strings, string 6 sounds what string 1 sounds. */
  lemma OuterGetNote(fb: FretboardNotes, note: string, p: FingerPosition)
    requires OuterStringsEqual(fb.tuning)
    ensures 1 <= p.stringNo <= 6 ==>
      (GetNote(fb, p.stringNo, p.fret) == Ok(note) <==>
        ((p.stringNo <= 5 && OpenSounds(fb.tuning[..5][p.stringNo - 1], p.fret, note))
          || (p.stringNo == 6 && OpenSounds(fb.tuning[..5][0], p.fret, note))))
  {
    if 1 <= p.stringNo <= 6 {
      GetNoteOpen(fb, p.stringNo, p.fret, note);
    }
  }

  /** Under standard tuning the reverse search is sound and complete. */
  lemma StandardPositions(maxFrets: int, note: string, p: FingerPosition)
    ensures New(StandardTuning, maxFrets).Ok?
    ensures var fb := New(StandardTuning, maxFrets).value;
      p in FretPositions(fb, note) <==>
        1 <= p.stringNo <= 6 && 0 <= p.fret <= maxFrets && GetNote(fb, p.stringNo, p.fret) == Ok(note)
  {
    StandardOuter();
    OuterPositions(StandardTuning, maxFrets, note, p);
  }

  /** The name `f` semitones above `o` is the one at pitch `q` exactly when `o + f`
      folds to `q`. */
  lemma NameAboveIs(o: Pitch, f: int, q: Pitch)
    ensures NameAbove(o, f) == Notes[q] <==> (o + f) % 12 == q
  {
    NotesDistinct();
  }

  /** The frets of a row from pitch `o` sounding the name at pitch `q`, given as the
      increasing list of frets where `o + f` folds to `q`. */
  lemma FretsOfRow(o: Pitch, maxFrets: int, q: Pitch, frets: seq<int>)
    requires Increasing(frets)
    requires forall f :: f in frets <==> 0 <= f <= maxFrets && (o + f) % 12 == q
    ensures FretsOf(Row(o, maxFrets), Notes[q]) == frets
  {
    var row := Row(o, maxFrets);
    forall f
      ensures f in FretsOf(row, Notes[q]) <==> f in frets
    {
      if 0 <= f < |row| {
        NameAboveIs(o, f, q);
      }
    }
    IncreasingUnique(FretsOf(row, Notes[q]), frets);
  }

  /** The frets among 0..13 where a string tuned to pitch `o` sounds pitch `q`: its
      distance above the open note, and that plus an octave while still on the board. */
  function Frets13(o: Pitch, q: Pitch): seq<int> {
    var c := CyclicOffset(o, q, 12);
    if c <= 1 then [c, c + 12] else [c]
  }

  /** On frets 0..13 a string sounds each name once, at its distance above the open
      note, and a second time an octave higher when that distance is 0 or 1. */
  lemma FretsOfRow13(o: Pitch, q: Pitch)
    ensures FretsOf(Row(o, 13), Notes[q]) == Frets13(o, q)
  {
    var c := CyclicOffset(o, q, 12);
    var frets := Frets13(o, q);
    forall f | 0 <= f <= 13
      ensures f in frets <==> (o + f) % 12 == q
    {
      if o + f >= 24 {
        assert (o + f) % 12 == o + f - 24;
      } else if o + f >= 12 {
        assert (o + f) % 12 == o + f - 12;
      } else {
        assert (o + f) % 12 == o + f;
      }
    }
    FretsOfRow(o, 13, q, frets);
  }

  /** The search over a five-entry table, given the frets found in each entry. */
  lemma PositionsFrom5(d: Dict<string, seq<string>>, note: string, fs: seq<seq<int>>)
    requires |d| == 5 && |fs| == 5
    requires forall i :: 0 <= i < 5 ==> FretsOf(d[i].val, note) == fs[i]
    ensures PositionsFrom(d, 0, note) ==
      (Tag(1, fs[0]) + Tag(6, fs[0])) + (Tag(2, fs[1]) + (Tag(3, fs[2]) + (Tag(4, fs[3]) + Tag(5, fs[4]))))
  {
    var p5 := PositionsFrom(d[5..], 5, note);
    assert p5 == [];
    var p4 := PositionsFrom(d[4..], 4, note);
    assert d[4..][1..] == d[5..] && d[4..][0] == d[4];
    assert p4 == Tag(5, fs[4]) + p5 == Tag(5, fs[4]);
    var p3 := PositionsFrom(d[3..], 3, note);
    assert d[3..][1..] == d[4..] && d[3..][0] == d[3];
    assert p3 == Tag(4, fs[3]) + p4;
    var p2 := PositionsFrom(d[2..], 2, note);
    assert d[2..][1..] == d[3..] && d[2..][0] == d[2];
    assert p2 == Tag(3, fs[2]) + p3;
    var p1 := PositionsFrom(d[1..], 1, note);
    assert d[1..][1..] == d[2..] && d[1..][0] == d[1];
    assert p1 == Tag(2, fs[1]) + p2;
    assert PositionsFrom(d, 0, note) == (Tag(1, fs[0]) + Tag(6, fs[0])) + p1;
  }

  /** Row `i` of a table built for 13 frets, read for the name at pitch `q`. */
  lemma EntryFrets13(tuning: seq<string>, i: nat, q: Pitch)
    requires New(tuning, 13).Ok?
    requires i < |Dedup(tuning)|
    ensures Dedup(tuning)[i] in Notes
    ensures i < |New(tuning, 13).value.stringNotes|
    ensures FretsOf(New(tuning, 13).value.stringNotes[i].val, Notes[q]) == Frets13(PitchOf(Dedup(tuning)[i]), q)
  {
    EntryRow(tuning, 13, i);
    FretsOfRow13(PitchOf(Dedup(tuning)[i]), q);
  }

  /** A six-string tuning whose outer strings agree and whose first five strings differ,
      all chromatic names; standard tuning is one. */
  predicate OuterStringsEqual(tuning: seq<string>) {
    |tuning| == 6 && Distinct(tuning[..5]) && tuning[5] == tuning[0]
    && forall i :: 0 <= i < 6 ==> tuning[i] in Notes
  }

  /** For such a tuning, where the name at pitch `q` sounds on each of strings 1..5. */
  function OuterFrets(tuning: seq<string>, q: Pitch): (r: seq<seq<int>>)
    requires OuterStringsEqual(tuning)
    ensures |r| == 5
    ensures forall i :: 0 <= i < 5 ==> r[i] == Frets13(PitchOf(tuning[i]), q)
  {
    seq(5, i requires 0 <= i < 5 => Frets13(PitchOf(tuning[i]), q))
  }

  /** Such a tuning builds a five-entry table, one entry per string 1..5. */
  lemma OuterStringsTable(tuning: seq<string>)
    requires OuterStringsEqual(tuning)
    ensures New(tuning, 13).Ok?
    ensures Dedup(tuning) == tuning[..5]
    ensures |New(tuning, 13).value.stringNotes| == 5
  {
    OuterDedup(tuning);
    EntryRow(tuning, 13, 0);
  }

  /** The sixth string repeats the first, so only the first five open notes key the
      table. */
  lemma OuterDedup(tuning: seq<string>)
    requires OuterStringsEqual(tuning)
    ensures Dedup(tuning) == tuning[..5]
  {
    assert tuning[..5][0] == tuning[5];
    DedupRepeatLast(tuning);
  }

  /** Where any name sounds on frets 0..13 under a six-string tuning whose outer strings
      agree and whose first five strings differ (standard tuning is one): the frets of
      strings 1 to 5, with string 1's frets repeated as string 6 right after them. */
  lemma OuterStringsAgree(tuning: seq<string>, q: Pitch)
    requires OuterStringsEqual(tuning)
    ensures New(tuning, 13).Ok?
    ensures var fs := OuterFrets(tuning, q);
      FretPositions(New(tuning, 13).value, Notes[q]) ==
        (Tag(1, fs[0]) + Tag(6, fs[0])) + (Tag(2, fs[1]) + (Tag(3, fs[2]) + (Tag(4, fs[3]) + Tag(5, fs[4]))))
  {
    OuterStringsTable(tuning);
    var d := New(tuning, 13).value.stringNotes;
    var fs := OuterFrets(tuning, q);
    forall i | 0 <= i < 5
      ensures FretsOf(d[i].val, Notes[q]) == fs[i]
    {
      EntryFrets13(tuning, i, q);
    }
    PositionsFrom5(d, Notes[q], fs);
  }

  lemma StandardOuter()
    ensures OuterStringsEqual(StandardTuning)
  {
    StandardTuningChromatic();
  }

  /** The pitch classes of the standard open strings: E, B, G, D, A, E. */
  lemma StandardPitches()
    ensures StandardTuning[0] == Notes[7] && StandardTuning[1] == Notes[2] && StandardTuning[2] == Notes[10]
    ensures StandardTuning[3] == Notes[5] && StandardTuning[4] == Notes[0] && StandardTuning[5] == Notes[7]
  {
  }

  /** Where E sounds under standard tuning on frets 0..13. */
  lemma StandardFretsOfE(t: seq<string>)
    requires t == StandardTuning
    ensures OuterStringsEqual(t)
    ensures OuterFrets(t, 7)[0] == [0, 12] && OuterFrets(t, 7)[1] == [5] && OuterFrets(t, 7)[2] == [9]
    ensures OuterFrets(t, 7)[3] == [2] && OuterFrets(t, 7)[4] == [7]
  {
    StandardOuter();
    StandardPitches();
    PitchOfNotes(7);
    PitchOfNotes(2);
    PitchOfNotes(10);
    PitchOfNotes(5);
    PitchOfNotes(0);
    assert PitchOf(t[0]) == 7 && PitchOf(t[1]) == 2 && PitchOf(t[2]) == 10;
    assert PitchOf(t[3]) == 5 && PitchOf(t[4]) == 0;
    FretsOfEOn13();
  }

  /** Where E, pitch 7, sounds on strings tuned to E, B, G, D and A. */
  lemma FretsOfEOn13()
    ensures Frets13(7, 7) == [0, 12] && Frets13(2, 7) == [5] && Frets13(10, 7) == [9]
    ensures Frets13(5, 7) == [2] && Frets13(0, 7) == [7]
  {
    assert CyclicOffset(7, 7, 12) == 0 && CyclicOffset(2, 7, 12) == 5 && CyclicOffset(10, 7, 12) == 9;
    assert CyclicOffset(5, 7, 12) == 2 && CyclicOffset(0, 7, 12) == 7;
  }

  /** The worked value in the fretboard tests: where E sounds on the default fretboard. */
  lemma DefaultPositionsOfE()
    ensures FretPositions(Default(), "E") == [
      FingerPosition(1, 0), FingerPosition(1, 12), FingerPosition(6, 0), FingerPosition(6, 12),
      FingerPosition(2, 5), FingerPosition(3, 9), FingerPosition(4, 2), FingerPosition(5, 7)]
  {
    assert Notes[7] == "E";
    var t := StandardTuning;
    StandardFretsOfE(t);
    OuterStringsAgree(t, 7);
    TagsOfE();
    DefaultIsNew();
  }

  lemma TagsOfE()
    ensures (Tag(1, [0, 12]) + Tag(6, [0, 12])) + (Tag(2, [5]) + (Tag(3, [9]) + (Tag(4, [2]) + Tag(5, [7])))) == [
      FingerPosition(1, 0), FingerPosition(1, 12), FingerPosition(6, 0), FingerPosition(6, 12),
      FingerPosition(2, 5), FingerPosition(3, 9), FingerPosition(4, 2), FingerPosition(5, 7)]
  {
    assert Tag(1, [0, 12]) == [FingerPosition(1, 0), FingerPosition(1, 12)];
    assert Tag(6, [0, 12]) == [FingerPosition(6, 0), FingerPosition(6, 12)];
    assert Tag(2, [5]) == [FingerPosition(2, 5)];
    assert Tag(3, [9]) == [FingerPosition(3, 9)];
    assert Tag(4, [2]) == [FingerPosition(4, 2)];
    assert Tag(5, [7]) == [FingerPosition(5, 7)];
  }

  /** Drop-D tuning: the reverse search on a tuning whose string 6 differs from
      string 1. */
  const DropD: seq<string> := ["E", "B", "G", "D", "A", "D"]

  /** An open string sounds its own note. */
  lemma OpenStringsSound()
    ensures OpenSounds("E", 0, "E") && OpenSounds("D", 0, "D")
  {
    PitchOfNotes(7);
    PitchOfNotes(5);
    NameAboveIs(7, 0, 7);
    NameAboveIs(5, 0, 5);
  }

  lemma DropDChromatic()
    ensures forall i :: 0 <= i < |DropD| ==> DropD[i] in Notes
  {
  }

  /** With string 6 tuned down to D, the search still reports string 1's open E as
      string 6, where `get_note` sounds D. */
  lemma DropDMisreports()
    ensures New(DropD, 13).Ok?
    ensures FingerPosition(6, 0) in FretPositions(New(DropD, 13).value, "E")
    ensures GetNote(New(DropD, 13).value, 6, 0) == Ok("D")
  {
    var t := DropD;
    DropDChromatic();
    DedupFirst(t);
    OpenStringsSound();
    ConstructedPositions(t, 13, "E", FingerPosition(6, 0));
    GetNoteOpen(New(t, 13).value, 6, 0, "D");
  }
}
