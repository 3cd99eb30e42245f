/** core/chord_shapes.py: reading a chord symbol, translating flat names, and the
    search for playable shapes: one fret position per chord note, every combination
    of them, kept when the frets span fewer than three and no string is used twice,
    then ordered by string. */
module ChordShapes {
  import opened Wrappers
  import opened Seqs
  import opened OrderedDict
  import opened Chromatic
  import opened Diagrams
  import opened Fretboard

  /** The flat sign. */
  const Flat: char := '\U{266D}'

  /** `note_translator`: seven flat names and the name the code writes for each. */
  const Translator: Dict<string, string> := [
    Item(['B', Flat], "A#"),
    Item(['D', Flat], "C#"),
    Item(['E', Flat], "D#"),
    Item(['G', Flat], "F#"),
    Item(['A', Flat], "G#"),
    Item(['C', Flat], "C"),
    Item(['F', Flat], "F")]

  /** Every translated name is a chromatic name, and no chromatic name is itself
      translated, as each key carries the flat sign. */
  lemma TranslatorTable(t: Dict<string, string>)
    requires t == Translator
    ensures WellFormed(t)
    ensures forall i :: 0 <= i < |t| ==> t[i].val in Notes && t[i].val != ""
    ensures forall n :: n in Notes ==> n !in Keys(t)
  {
    forall n | n in Notes
      ensures n !in Keys(t)
    {
      assert Flat !in n;
      forall i | 0 <= i < |t|
        ensures t[i].key != n
      {
        assert Flat in t[i].key;
      }
    }
  }

  /** `note_translator.get(n) or n`: the name written for a listed flat name (an empty
      one would fall back to `n`, but none is empty); any other name unchanged. */
  function Translate(n: string): (r: string)
    ensures n !in Keys(Translator) ==> r == n
    ensures n in Keys(Translator) ==> r in Notes && Get(Translator, n) == Some(r)
  {
    var t := Translator;
    match Get(t, n)
    case None => n
    case Some(v) =>
      TranslatorTable(t);
      var i :| 0 <= i < |t| && t[i].key == n;
      GetAt(t, i);
      if v == "" then n else v
  }

  /** Translating twice is translating once: what comes out is never a flat name. */
  lemma TranslateIdempotent(n: string)
    ensures Translate(Translate(n)) == Translate(n)
  {
    TranslatorTable(Translator);
  }

  /** The pitch classes of the names the first five flat names translate to. */
  const SharpPitches: seq<Pitch> := [1, 4, 6, 9, 11]

  /** Five flat names are translated to the name a semitone below their letter; `C♭`
      and `F♭` are written as the letter itself, a semitone above the pitch they name. */
  lemma TranslatorPitches(t: Dict<string, string>)
    requires t == Translator
    ensures forall i :: 0 <= i < 5 ==>
      Notes[SharpPitches[i]] == t[i].val && Notes[(SharpPitches[i] as int + 1) % 12] == t[i].key[0..1]
    ensures forall i :: 5 <= i < 7 ==> t[i].val == t[i].key[0..1]
  {
  }

  /** What `get_chord_name` returns: the root letter and a quality name. */
  datatype ChordName = ChordName(root: string, quality: string)

  /** `get_chord_name(chord_string)`: the root is the first character (IndexError for
      the empty string); the quality is read from substrings, major before minor before
      the suspended ones. When none of the tests holds, `chord_quality` is never bound
      and the return raises UnboundLocalError. */
  function GetChordName(s: string): (r: Result<ChordName>)
    ensures r.Err? <==> (|s| == 0 ||
      !(|s| == 1 || HasSubstring(s, "major") || HasSubstring(s, "minor") || (|s| == 2 && s[1] == 'm')
        || HasSubstring(s, "sus4") || HasSubstring(s, "sus2")))
    ensures r.Err? ==> r.error == if |s| == 0 then IndexError else UnboundLocalError
    ensures r.Ok? ==> r.value.root == s[0..1]
  {
    if |s| == 0 then Err(IndexError)
    else
      var root := s[0..1];
      if |s| == 1 || HasSubstring(s, "major") then Ok(ChordName(root, "major"))
      else if HasSubstring(s, "minor") || (|s| == 2 && s[1] == 'm') then Ok(ChordName(root, "minor"))
      else if HasSubstring(s, "sus4") then Ok(ChordName(root, "suspended_4"))
      else if HasSubstring(s, "sus2") then Ok(ChordName(root, "suspended_2"))
      else Err(UnboundLocalError)
  }

  /** Which quality a symbol reads as: `major` wins over everything, `minor` over the
      suspended ones, and `sus4` over `sus2`. */
  lemma ChordNamePrecedence(s: string)
    requires |s| > 0
    ensures GetChordName(s).Ok? && GetChordName(s).value.quality == "major" <==>
      |s| == 1 || HasSubstring(s, "major")
    ensures GetChordName(s).Ok? && GetChordName(s).value.quality == "minor" <==>
      !(|s| == 1 || HasSubstring(s, "major")) && (HasSubstring(s, "minor") || (|s| == 2 && s[1] == 'm'))
    ensures GetChordName(s).Ok? && GetChordName(s).value.quality == "suspended_4" <==>
      GetChordName(s).Ok? && !(|s| == 1 || HasSubstring(s, "major") || HasSubstring(s, "minor")
        || (|s| == 2 && s[1] == 'm')) && HasSubstring(s, "sus4")
  {
  }

  /** A string shorter than `sub` does not contain it. */
  lemma {:induction false} ShortNoSubstring(s: string, sub: string)
    requires |s| < |sub|
    ensures !HasSubstring(s, sub)
    decreases |s|
  {
    if |s| > 0 {
      ShortNoSubstring(s[1..], sub);
    }
  }

  /** Worked examples: `Am` is A minor, `Dsus4` is D suspended_4, and `Cm7` matches no
      test, so the quality is never bound. */
  lemma ChordNameExamples(am: string, dsus4: string, cm7: string)
    requires am == "Am" && dsus4 == "Dsus4" && cm7 == "Cm7"
    ensures GetChordName(am) == Ok(ChordName("A", "minor"))
    ensures GetChordName(dsus4) == Ok(ChordName("D", "suspended_4"))
    ensures GetChordName(cm7) == Err(UnboundLocalError)
  {
    ShortNoSubstring(am, "major");
    assert am[0..1] == "A";
    ShortNoSubstring(dsus4[1..], "major");
    ShortNoSubstring(dsus4[1..], "minor");
    assert dsus4[..5][0] == 'D' && "major"[0] == 'm' && "minor"[0] == 'm';
    assert !HasSubstring(dsus4, "major") && !HasSubstring(dsus4, "minor");
    assert HasSubstring(dsus4[1..], "sus4");
    assert dsus4[0..1] == "D";
    ShortNoSubstring(cm7, "major");
    ShortNoSubstring(cm7, "minor");
    ShortNoSubstring(cm7, "sus4");
    ShortNoSubstring(cm7, "sus2");
  }

  /** `get_chord_notes(root, quality)`: `Chords(root_note)` leaves out the required
      `quality` argument, so the call always raises TypeError. */
  function GetChordNotes(root: string, quality: string): (r: Result<seq<string>>)
    ensures r.Err? && r.error == TypeError
  {
    Err(TypeError)
  }

  /** `get_shapes(chord_string)` as written never returns: reading the symbol raises
      first, or `get_chord_notes` does, so the search below (`ShapesFromNotes`) is never
      reached from here. */
  function GetShapes(s: string): (r: Result<seq<seq<FingerPosition>>>)
    ensures r.Err?
    ensures GetChordName(s).Err? ==> r.error == GetChordName(s).error
    ensures GetChordName(s).Ok? ==> r.error == TypeError
  {
    match GetChordName(s)
    case Err(e) => Err(e)
    case Ok(name) => Err(GetChordNotes(name.root, name.quality).error)
  }

  /** `itertools.product(*lists)`: one element from each list, the first list varying
      slowest. */
  function Product<T(!new)>(lists: seq<seq<T>>): (r: seq<seq<T>>)
    ensures forall c :: c in r ==> |c| == |lists|
    decreases |lists|
  {
    if |lists| == 0 then [[]] else Prefix(lists[0], Product(lists[1..]))
  }

  /** `[[x] + p for x in xs for p in ps]` */
  function Prefix<T(!new)>(xs: seq<T>, ps: seq<seq<T>>): (r: seq<seq<T>>)
    ensures forall c :: c in r <==> |c| > 0 && c[0] in xs && c[1..] in ps
  {
    if |xs| == 0 then []
    else
      var here := seq(|ps|, j requires 0 <= j < |ps| => [xs[0]] + ps[j]);
      var rest := Prefix(xs[1..], ps);
      assert forall c :: c in here <==> |c| > 0 && c[0] == xs[0] && c[1..] in ps by {
        forall c | |c| > 0 && c[0] == xs[0] && c[1..] in ps
          ensures c in here
        {
          var j :| 0 <= j < |ps| && ps[j] == c[1..];
          assert here[j] == c;
        }
      }
      assert forall x :: x in xs <==> x == xs[0] || x in xs[1..];
      here + rest
  }

  /** A combination is in the product exactly when it takes one element from each list,
      in order. */
  lemma {:induction false} ProductMember<T(!new)>(lists: seq<seq<T>>, c: seq<T>)
    ensures c in Product(lists) <==> |c| == |lists| && forall i :: 0 <= i < |c| ==> c[i] in lists[i]
    decreases |lists|
  {
    if |lists| > 0 && |c| > 0 {
      ProductMember(lists[1..], c[1..]);
      if |c| == |lists| && forall i :: 0 <= i < |c| ==> c[i] in lists[i] {
        assert forall i :: 0 <= i < |c| - 1 ==> c[1..][i] in lists[1..][i] by {
          forall i | 0 <= i < |c| - 1
            ensures c[1..][i] in lists[1..][i]
          {
            assert c[i + 1] in lists[i + 1];
          }
        }
      }
      if c in Product(lists) {
        forall i | 0 <= i < |c|
          ensures c[i] in lists[i]
        {
          if i > 0 {
            assert c[1..][i - 1] in lists[1..][i - 1];
          }
        }
      }
    }
  }

  /** The string numbers of a combination. */
  function Strings(c: seq<FingerPosition>): (r: seq<int>)
    ensures |r| == |c| && forall i :: 0 <= i < |c| ==> r[i] == c[i].stringNo
  {
    seq(|c|, i requires 0 <= i < |c| => c[i].stringNo)
  }

  /** `max(f[1] for f in x)` */
  function MaxFret(c: seq<FingerPosition>): (r: int)
    requires |c| > 0
    ensures exists i :: 0 <= i < |c| && c[i].fret == r
    ensures forall i :: 0 <= i < |c| ==> c[i].fret <= r
  {
    if |c| == 1 then c[0].fret
    else
      var m := MaxFret(c[1..]);
      assert forall i :: 1 <= i < |c| ==> c[i] == c[1..][i - 1];
      if c[0].fret >= m then c[0].fret else m
  }

  /** `min(f[1] for f in x)` */
  function MinFret(c: seq<FingerPosition>): (r: int)
    requires |c| > 0
    ensures exists i :: 0 <= i < |c| && c[i].fret == r
    ensures forall i :: 0 <= i < |c| ==> r <= c[i].fret
  {
    if |c| == 1 then c[0].fret
    else
      var m := MinFret(c[1..]);
      assert forall i :: 1 <= i < |c| ==> c[i] == c[1..][i - 1];
      if c[0].fret <= m then c[0].fret else m
  }

  /** The fret range of a combination, `max - min`: the largest difference between two
      of its frets. */
  function Span(c: seq<FingerPosition>): (r: int)
    requires |c| > 0
    ensures r >= 0
    ensures forall i, j :: 0 <= i < |c| && 0 <= j < |c| ==> c[i].fret - c[j].fret <= r
    ensures exists i, j :: 0 <= i < |c| && 0 <= j < |c| && c[i].fret - c[j].fret == r
  {
    MaxFret(c) - MinFret(c)
  }

  /** `{x[0] for x in i}`: the strings a combination uses. */
  function StringSet(c: seq<FingerPosition>): set<int> {
    set p | p in c :: p.stringNo
  }

  /** A combination is kept when its frets span fewer than three and it has as many
      strings as positions. */
  predicate Playable(c: seq<FingerPosition>)
    requires |c| > 0
  {
    Span(c) < 3 && |StringSet(c)| == |c|
  }

  /** A sequence has as many distinct elements as entries exactly when none repeats. */
  lemma {:induction false} CardDistinct<T>(xs: seq<T>)
    ensures |set x | x in xs| <= |xs|
    ensures |set x | x in xs| == |xs| <==> Distinct(xs)
  {
    if |xs| > 0 {
      var init := xs[..|xs| - 1];
      var x := xs[|xs| - 1];
      CardDistinct(init);
      assert xs == init + [x];
      assert (set y | y in xs) == (set y | y in init) + {x};
      if x in init {
        assert (set y | y in xs) == (set y | y in init);
        var k :| 0 <= k < |init| && init[k] == x;
        assert xs[k] == xs[|xs| - 1];
      } else {
        if Distinct(init) {
          assert Distinct(xs);
        } else {
          var a, b :| 0 <= a < b < |init| && init[a] == init[b];
          assert xs[a] == xs[b];
        }
      }
    }
  }

  /** The strings are all different exactly when the string set is as large as the
      combination. */
  lemma StringSetDistinct(c: seq<FingerPosition>)
    ensures |StringSet(c)| == |c| <==> Distinct(Strings(c))
  {
    var ss := Strings(c);
    assert StringSet(c) == set x | x in ss by {
      forall x
        ensures x in StringSet(c) <==> x in ss
      {
        if x in ss {
          var i :| 0 <= i < |ss| && ss[i] == x;
          assert c[i] in c;
        }
        if x in StringSet(c) {
          var p :| p in c && p.stringNo == x;
          var i :| 0 <= i < |c| && c[i] == p;
          assert ss[i] == x;
        }
      }
    }
    CardDistinct(ss);
  }

  /** The sort key `lambda x: x[0]`: a position's string number. */
  function StringOf(p: FingerPosition): int {
    p.stringNo
  }

  /** `sorted(i, key=lambda x: x[0])`: the stable sort on the string number. */
  function SortByString(c: seq<FingerPosition>): (r: seq<FingerPosition>)
    ensures SortedBy(r, StringOf)
    ensures |r| == |c| && multiset(r) == multiset(c)
  {
    SortBy(c, StringOf)
  }

  /** String numbers rise strictly along the sequence. */
  predicate StrictlyByString(c: seq<FingerPosition>) {
    forall i, j :: 0 <= i < j < |c| ==> c[i].stringNo < c[j].stringNo
  }

  /** Reordering a combination changes neither its fret span nor its strings. */
  lemma SameElements(a: seq<FingerPosition>, b: seq<FingerPosition>)
    requires |a| > 0 && multiset(a) == multiset(b)
    ensures |b| == |a| && Span(a) == Span(b) && StringSet(a) == StringSet(b)
  {
    MultisetSameMembers(a, b);
    SameMax(a, b);
    SameMax(b, a);
    SameMin(a, b);
    SameMin(b, a);
    assert StringSet(a) == StringSet(b);
  }

  /** Sequences with the same positions reach no higher fret than each other. */
  lemma SameMax(a: seq<FingerPosition>, b: seq<FingerPosition>)
    requires |a| > 0 && |b| > 0 && forall p :: p in a <==> p in b
    ensures MaxFret(a) <= MaxFret(b)
  {
    var i :| 0 <= i < |a| && a[i].fret == MaxFret(a);
    assert a[i] in b;
  }

  /** Sequences with the same positions reach no lower fret than each other. */
  lemma SameMin(a: seq<FingerPosition>, b: seq<FingerPosition>)
    requires |a| > 0 && |b| > 0 && forall p :: p in a <==> p in b
    ensures MinFret(b) <= MinFret(a)
  {
    var i :| 0 <= i < |a| && a[i].fret == MinFret(a);
    assert a[i] in b;
  }


  /** The sorted form of a kept combination: same positions, same span, and strings in
      strictly rising order. */
  lemma SortedPlayable(c: seq<FingerPosition>)
    requires |c| > 0 && Playable(c)
    ensures var s := SortByString(c);
      |s| == |c| && multiset(s) == multiset(c) && Span(s) < 3 && StrictlyByString(s)
  {
    var s := SortByString(c);
    SameElements(c, s);
    StringSetDistinct(s);
    forall i, j | 0 <= i < j < |s|
      ensures s[i].stringNo < s[j].stringNo
    {
      assert Strings(s)[i] != Strings(s)[j];
    }
  }

  /** `comb_filtered`, sorted: the playable combinations, each sorted by string, in
      product order. */
  function Kept(comb: seq<seq<FingerPosition>>): (r: seq<seq<FingerPosition>>)
    requires forall i :: 0 <= i < |comb| ==> |comb[i]| > 0
    ensures forall s :: s in r <==> exists c :: c in comb && |c| > 0 && Playable(c) && s == SortByString(c)
  {
    if |comb| == 0 then []
    else
      var here := if Playable(comb[0]) then [SortByString(comb[0])] else [];
      var rest := Kept(comb[1..]);
      assert forall c :: c in comb <==> c == comb[0] || c in comb[1..];
      here + rest
  }

  /** The search of `get_shapes` from the list of chord notes on: translate flat names,
      look up the positions of each, take every combination, and keep the playable ones
      sorted by string. Working out the span of a combination runs `max` on it, which
      raises ValueError when there are no notes (the product then holds one empty
      combination). Every kept shape has a position per note, a span below three, and
      strictly rising strings. */
  function ShapesFromNotes(fb: FretboardNotes, notes: seq<string>): (r: Result<seq<seq<FingerPosition>>>)
    ensures r.Err? <==> |notes| == 0
    ensures r.Err? ==> r.error == ValueError
    ensures r.Ok? ==> forall s :: s in r.value ==> |s| == |notes| && Span(s) < 3 && StrictlyByString(s)
  {
    var comb := Product(NotePositions(fb, notes));
    if [] in comb then Err(ValueError)
    else
      var r := Kept(comb);
      assert forall s :: s in r ==> |s| == |notes| && Span(s) < 3 && StrictlyByString(s) by {
        forall s | s in r
          ensures |s| == |notes| && Span(s) < 3 && StrictlyByString(s)
        {
          var c :| c in comb && |c| > 0 && Playable(c) && s == SortByString(c);
          SortedPlayable(c);
        }
      }
      Ok(r)
  }

  /** `chord_notes.values()`: the positions of each translated chord note, in order. */
  function NotePositions(fb: FretboardNotes, notes: seq<string>): (r: seq<seq<FingerPosition>>)
    ensures |r| == |notes|
    ensures forall i :: 0 <= i < |notes| ==> r[i] == FretPositions(fb, Translate(notes[i]))
  {
    seq(|notes|, i requires 0 <= i < |notes| => FretPositions(fb, Translate(notes[i])))
  }

  /** With at least one note there is no empty combination, and the search returns
      the kept combinations of the product. */
  lemma ShapesFromNotesOk(fb: FretboardNotes, notes: seq<string>)
    requires |notes| > 0
    ensures var comb := Product(NotePositions(fb, notes));
      (forall i :: 0 <= i < |comb| ==> |comb[i]| > 0) && ShapesFromNotes(fb, notes) == Ok(Kept(comb))
  {
    var comb := Product(NotePositions(fb, notes));
    assert forall i :: 0 <= i < |comb| ==> comb[i] in comb;
  }

  /** What survives the filter of a product: a combination of one element per list,
      reordered by string, with a span below three and distinct strings. */
  lemma KeptSound(ps: seq<seq<FingerPosition>>, s: seq<FingerPosition>)
    requires |ps| > 0
    requires s in Kept(Product(ps))
    ensures exists c :: (|c| == |ps| && multiset(c) == multiset(s) && Span(c) < 3 &&
      Distinct(Strings(c)) && forall i :: 0 <= i < |c| ==> c[i] in ps[i])
  {
    var c :| c in Product(ps) && |c| > 0 && Playable(c) && s == SortByString(c);
    ProductMember(ps, c);
    StringSetDistinct(c);
  }

  /** Every combination of one element per list with a span below three and distinct
      strings survives the filter, sorted by string. */
  lemma KeptComplete(ps: seq<seq<FingerPosition>>, c: seq<FingerPosition>)
    requires |c| == |ps| > 0
    requires forall i :: 0 <= i < |c| ==> c[i] in ps[i]
    requires Span(c) < 3 && Distinct(Strings(c))
    ensures SortByString(c) in Kept(Product(ps))
  {
    ProductMember(ps, c);
    StringSetDistinct(c);
  }

  /** Every shape found is some choice of one reported position per chord note,
      reordered by string, whose frets span fewer than three on distinct strings. */
  lemma ShapesSound(fb: FretboardNotes, notes: seq<string>, s: seq<FingerPosition>)
    requires ShapesFromNotes(fb, notes).Ok? && s in ShapesFromNotes(fb, notes).value
    ensures exists c :: (|c| == |notes| && multiset(c) == multiset(s) && Span(c) < 3 &&
      Distinct(Strings(c)) && forall i :: 0 <= i < |c| ==> c[i] in FretPositions(fb, Translate(notes[i])))
  {
    var ps := NotePositions(fb, notes);
    ShapesFromNotesOk(fb, notes);
    KeptSound(ps, s);
  }

  /** Every choice of one reported position per chord note whose frets span fewer than
      three on distinct strings is found, sorted by string. */
  lemma ShapesComplete(fb: FretboardNotes, notes: seq<string>, c: seq<FingerPosition>)
    requires |c| == |notes| > 0
    requires forall i :: 0 <= i < |c| ==> c[i] in FretPositions(fb, Translate(notes[i]))
    requires Span(c) < 3 && Distinct(Strings(c))
    ensures ShapesFromNotes(fb, notes).Ok? && SortByString(c) in ShapesFromNotes(fb, notes).value
  {
    ShapesFromNotesOk(fb, notes);
    KeptComplete(NotePositions(fb, notes), c);
  }

  /** Under standard tuning every position of a found shape is on the board and sounds
      one of the translated chord notes. */
  lemma StandardShapesSound(maxFrets: int, notes: seq<string>, s: seq<FingerPosition>, p: FingerPosition)
    requires New(StandardTuning, maxFrets).Ok?
    requires var r := ShapesFromNotes(New(StandardTuning, maxFrets).value, notes); r.Ok? && s in r.value
    requires p in s
    ensures 1 <= p.stringNo <= 6 && 0 <= p.fret <= maxFrets
    ensures exists i :: (0 <= i < |notes| &&
      GetNote(New(StandardTuning, maxFrets).value, p.stringNo, p.fret) == Ok(Translate(notes[i])))
  {
    var fb := New(StandardTuning, maxFrets).value;
    ShapesSound(fb, notes, s);
    var c :| |c| == |notes| && multiset(c) == multiset(s) && Span(c) < 3 &&
      Distinct(Strings(c)) && forall i :: 0 <= i < |c| ==> c[i] in FretPositions(fb, Translate(notes[i]));
    assert p in multiset(s);
    var i :| 0 <= i < |c| && c[i] == p;
    StandardPositions(maxFrets, Translate(notes[i]), p);
  }
}
