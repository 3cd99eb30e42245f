/** The `ChromaticNotes` enum of src/chord_visualisation/core/notes.py: twelve notes,
    each with a standard (sharp) and an alternative (flat) spelling, looked up by
    either spelling and rotated into an octave starting at a given note. */
module MusicalNotes {
  import opened Wrappers
  import opened Seqs
  import opened OrderedDict
  import Chromatic

  /** A `MusicalNote` as far as the pitch logic reads it: its two spellings.
      The base frequency and octave fields are not modelled. */
  datatype MusicalNote = MusicalNote(standard: string, alternative: string)

  /** The values of the enum members, in declaration order. */
  const Members: seq<MusicalNote> := [
    MusicalNote("A", "A"), MusicalNote("A#", "Bb"), MusicalNote("B", "B"),
    MusicalNote("C", "C"), MusicalNote("C#", "Db"), MusicalNote("D", "D"),
    MusicalNote("D#", "Eb"), MusicalNote("E", "E"), MusicalNote("F", "F"),
    MusicalNote("F#", "Gb"), MusicalNote("G", "G"), MusicalNote("G#", "Ab")]

  /** `[n.standard_notation for n in ms]` */
  function Standards(ms: seq<MusicalNote>): (r: seq<string>)
    ensures |r| == |ms|
    ensures forall i :: 0 <= i < |ms| ==> r[i] == ms[i].standard
  {
    seq(|ms|, i requires 0 <= i < |ms| => ms[i].standard)
  }

  /** `[n.alternative_notation for n in ms]` */
  function Alternatives(ms: seq<MusicalNote>): (r: seq<string>)
    ensures |r| == |ms|
    ensures forall i :: 0 <= i < |ms| ==> r[i] == ms[i].alternative
  {
    seq(|ms|, i requires 0 <= i < |ms| => ms[i].alternative)
  }

  /** The standard spellings are the chromatic scale of core/chromatic.py, in the same order. */
  lemma StandardsAreNotes()
    ensures Standards(Members) == Chromatic.Notes
  {
  }

  /** No two members share an alternative spelling. */
  lemma AlternativesDistinct()
    ensures Distinct(Alternatives(Members))
  {
  }

  /** Projecting the spellings commutes with rotating the octave. */
  lemma StandardsRotate(ms: seq<MusicalNote>, k: nat)
    requires k < |ms|
    ensures Standards(Rotate(ms, k)) == Rotate(Standards(ms), k)
  {
  }

  /** `get_note_by_standard_notation`: the member with that standard spelling. The
      list of matches is indexed with `[0]`, so a miss raises IndexError. */
  function ByStandard(s: string): (r: Result<MusicalNote>)
    ensures r.Ok? <==> s in Chromatic.Notes
    ensures r.Err? ==> r.error == IndexError
    ensures r.Ok? ==> r.value in Members && r.value.standard == s
  {
    StandardsAreNotes();
    match IndexOf(Standards(Members), s)
    case None => Err(IndexError)
    case Some(i) => Ok(Members[i])
  }

  /** Each member's standard spelling names its own position. */
  lemma PitchOfMember(i: nat)
    requires i < 12
    ensures Members[i].standard in Chromatic.Notes
    ensures Chromatic.PitchOf(Members[i].standard) == i
  {
    StandardsAreNotes();
    Chromatic.PitchOfNotes(i);
  }

  /** The note found for a standard spelling is the member at its pitch class. */
  lemma ByStandardPitch(s: string)
    requires s in Chromatic.Notes
    ensures ByStandard(s) == Ok(Members[Chromatic.PitchOf(s)])
  {
    StandardsAreNotes();
  }

  /** `get_note_by_alternative_notation`: the first member, in declaration order, with
      that alternative spelling; the loop falls off its end, returning None, on a miss. */
  function ByAlternative(a: string): (r: Option<MusicalNote>)
    ensures r.None? <==> a !in Alternatives(Members)
    ensures r.Some? ==> exists i :: (0 <= i < |Members| && Members[i] == r.value
      && Members[i].alternative == a && a !in Alternatives(Members)[..i])
  {
    match IndexOf(Alternatives(Members), a)
    case None => None
    case Some(i) => Some(Members[i])
  }

  /** Looking up a member by its own alternative spelling finds that member. */
  lemma ByAlternativeOf(i: nat)
    requires i < |Members|
    ensures ByAlternative(Members[i].alternative) == Some(Members[i])
  {
    AlternativesDistinct();
    IndexOfDistinct(Alternatives(Members), i);
  }

  /** `get_full_octave_from_starting_note`: the members rotated to start at the one whose
      standard spelling is `s`; the loop's `else` raises ValueError on a miss. */
  function FullOctave(s: string): (r: Result<seq<MusicalNote>>)
    ensures r.Ok? <==> s in Chromatic.Notes
    ensures r.Err? ==> r.error == ValueError
    ensures r.Ok? ==> |r.value| == 12 && r.value[0].standard == s
    ensures r.Ok? ==> r.value == Rotate(Members, Chromatic.PitchOf(s))
  {
    StandardsAreNotes();
    match IndexOf(Standards(Members), s)
    case None => Err(ValueError)
    case Some(i) => Ok(Rotate(Members, i))
  }

  /** No member occurs twice. */
  lemma MembersDistinct()
    ensures Distinct(Members)
  {
    StandardsAreNotes();
    Chromatic.NotesDistinct();
  }

  /** Every octave holds each of the twelve members exactly once. */
  lemma FullOctavePermutes(s: string)
    requires s in Chromatic.Notes
    ensures FullOctave(s).Ok?
    ensures multiset(FullOctave(s).value) == multiset(Members)
    ensures Distinct(FullOctave(s).value)
  {
    var k := Chromatic.PitchOf(s);
    RotateMultiset(Members, k);
    MembersDistinct();
    RotateDistinct(Members, k);
  }

  /** `get_full_octave_of_notes_and_distance_from_starting_note`: each standard spelling
      of the octave sent to its position in it. */
  function DistanceMap(s: string): (r: Result<Dict<string, int>>)
    ensures r.Ok? <==> s in Chromatic.Notes
    ensures r.Err? ==> r.error == ValueError
    ensures r.Ok? ==> forall i :: 0 <= i < |r.value| ==> r.value[i].val == i
  {
    var octave :- FullOctave(s);
    Ok(ZipWithPositions(Standards(octave)))
  }

  /** The distance map is the scale of core/chromatic.py, error included, so it sends
      the starting note to 0 and every note to its distance above it. */
  lemma DistanceMapIsScale(s: string)
    ensures DistanceMap(s) == Chromatic.Scale(s)
  {
    if s in Chromatic.Notes {
      var k := Chromatic.PitchOf(s);
      StandardsRotate(Members, k);
      StandardsAreNotes();
      Chromatic.ScaleIsRotation(s);
    }
  }

  /** `get_standard_notations_for_full_octave_from_starting_note`. */
  function StandardNames(s: string): (r: Result<seq<string>>)
    ensures r.Ok? <==> s in Chromatic.Notes
    ensures r.Err? ==> r.error == ValueError
  {
    var octave :- FullOctave(s);
    Ok(Standards(octave))
  }

  /** The standard names of an octave are the keys of its distance map, in order: the
      chromatic scale rotated to start at `s`. */
  lemma StandardNamesAreKeys(s: string)
    requires s in Chromatic.Notes
    ensures StandardNames(s).Ok? && DistanceMap(s).Ok?
    ensures StandardNames(s).value == Keys(DistanceMap(s).value)
    ensures StandardNames(s).value == Rotate(Chromatic.Notes, Chromatic.PitchOf(s))
  {
    StandardsRotate(Members, Chromatic.PitchOf(s));
    StandardsAreNotes();
  }

  /** `get_standard_notation_from_alternative_notation`: the standard spelling of the
      note with alternative spelling `a`; on a miss the lookup returns None, reading
      its `standard_notation` raises AttributeError, and the handler returns `a`. */
  function StandardFromAlternative(a: string): (r: string)
    ensures a in Alternatives(Members) ==> r in Chromatic.Notes
    ensures a in Alternatives(Members) ==>
      exists i :: 0 <= i < |Members| && Members[i].alternative == a && Members[i].standard == r
    ensures a !in Alternatives(Members) ==> r == a
  {
    StandardsAreNotes();
    match ByAlternative(a)
    case Some(m) => m.standard
    case None => a
  }

  /** A standard spelling that is also an alternative spelling names the same note:
      only the natural notes are spelled alike both ways. */
  lemma StandardAlsoAlternative(i: nat, j: nat)
    requires i < |Members| && j < |Members|
    requires Members[i].standard == Members[j].alternative
    ensures Members[j].standard == Members[i].standard
  {
  }

  /** Translating to the standard spelling twice is the same as translating once. */
  lemma StandardFromAlternativeIdempotent(a: string)
    ensures StandardFromAlternative(StandardFromAlternative(a)) == StandardFromAlternative(a)
  {
    var r := StandardFromAlternative(a);
    if a in Alternatives(Members) {
      var i :| 0 <= i < |Members| && Members[i].alternative == a && Members[i].standard == r;
      if r in Alternatives(Members) {
        var j :| 0 <= j < |Members| && Members[j].alternative == r
          && Members[j].standard == StandardFromAlternative(r);
        StandardAlsoAlternative(i, j);
      }
    }
  }
}

/** The earlier `ChromaticNotes` of core/notes.py. Its standard lookup goes through
    `Enum.__getitem__`, so it is keyed by the member's Python name (`A_sharp`, not
    `A#`), and the distance map hands a `MusicalNote` to that lookup. */
module LegacyNotes {
  import opened Wrappers
  import opened Seqs
  import opened OrderedDict
  import Chromatic
  import opened MusicalNotes

  /** The member names, in declaration order; the values are `Members`. */
  const MemberNames: seq<string> := [
    "A", "A_sharp", "B", "C", "C_sharp", "D", "D_sharp", "E", "F", "F_sharp", "G", "G_sharp"]

  /** The member names that equal their member's standard spelling. */
  const Naturals: seq<string> := ["A", "B", "C", "D", "E", "F", "G"]

  /** What a caller may pass where a note name is expected: a string, or (as the distance
      map does) a `MusicalNote`, which attrs makes unhashable. */
  datatype Key = Name(name: string) | Note(note: MusicalNote)

  /** `ChromaticNotes.__getitem__`: the position of the member called `k`. A string
      that names no member raises KeyError; an unhashable key raises TypeError. */
  function GetItem(k: Key): (r: Result<nat>)
    ensures r.Err? ==> (k.Note? <==> r.error == TypeError)
    ensures r.Err? ==> r.error in {TypeError, KeyError}
    ensures r.Ok? <==> k.Name? && k.name in MemberNames
    ensures r.Ok? ==> r.value < 12 && MemberNames[r.value] == k.name
  {
    match k
    case Note(_) => Err(TypeError)
    case Name(s) =>
      match IndexOf(MemberNames, s)
      case None => Err(KeyError)
      case Some(i) => Ok(i)
  }

  /** `get_note_by_standard_notation`, despite its name a lookup by member name. */
  function ByStandard(k: Key): (r: Result<MusicalNote>)
    ensures r.Ok? <==> k.Name? && k.name in MemberNames
    ensures r.Err? ==> r.error == (if k.Note? then TypeError else KeyError)
    ensures r.Ok? ==> r.value in Members
  {
    var i :- GetItem(k);
    Ok(Members[i])
  }

  /** The `for note in cls` loop of `get_note_by_alternative_notation` over the members
      `ms`: the first member with that alternative spelling, or None once the loop ends. */
  function FindAlternative(ms: seq<MusicalNote>, a: string): (r: Option<MusicalNote>)
    ensures r.None? <==> a !in Alternatives(ms)
    ensures r.Some? ==> r.value in ms && r.value.alternative == a
  {
    if |ms| == 0 then None
    else
      assert Alternatives(ms) == [ms[0].alternative] + Alternatives(ms[1..]);
      if ms[0].alternative == a then Some(ms[0]) else FindAlternative(ms[1..], a)
  }

  /** The loop stops at the first member whose alternative spelling matches. */
  lemma {:induction false} FindAlternativeFirst(ms: seq<MusicalNote>, a: string)
    ensures match IndexOf(Alternatives(ms), a)
      case None => FindAlternative(ms, a) == None
      case Some(i) => i < |ms| && FindAlternative(ms, a) == Some(ms[i])
  {
    if |ms| > 0 {
      assert Alternatives(ms) == [ms[0].alternative] + Alternatives(ms[1..]);
      assert Alternatives(ms)[1..] == Alternatives(ms[1..]);
      if ms[0].alternative != a {
        FindAlternativeFirst(ms[1..], a);
      }
    }
  }

  /** `get_note_by_alternative_notation` of core/notes.py. */
  function ByAlternative(a: string): (r: Option<MusicalNote>)
    ensures r.None? <==> a !in Alternatives(Members)
    ensures r.Some? ==> r.value in Members && r.value.alternative == a
  {
    FindAlternative(Members, a)
  }

  /** The alternative-spelling lookup is the same in both generations of the enum. */
  lemma ByAlternativeAgrees(a: string)
    ensures ByAlternative(a) == MusicalNotes.ByAlternative(a)
  {
    FindAlternativeFirst(Members, a);
  }

  lemma MemberNamesDistinct()
    ensures Distinct(MemberNames)
  {
  }

  /** Each natural name is the name of the member it spells. */
  lemma NaturalAt(s: string) returns (i: nat)
    requires s in Naturals
    ensures i < 12 && MemberNames[i] == s && Members[i].standard == s
  {
    if s == "A" { i := 0; }
    else if s == "B" { i := 2; }
    else if s == "C" { i := 3; }
    else if s == "D" { i := 5; }
    else if s == "E" { i := 7; }
    else if s == "F" { i := 8; }
    else { i := 10; }
  }

  /** Looking a member up by its own name finds its position. */
  lemma GetItemAt(i: nat)
    requires i < 12
    ensures GetItem(Name(MemberNames[i])) == Ok(i)
  {
    MemberNamesDistinct();
    IndexOfDistinct(MemberNames, i);
  }

  lemma NaturalsAreNames()
    ensures forall s :: s in Naturals ==> s in MemberNames
  {
  }

  /** A member with a natural name is spelled as it is called. */
  lemma NaturalMember(i: nat)
    requires i < 12 && MemberNames[i] in Naturals
    ensures Members[i].standard == MemberNames[i]
  {
  }

  /** A member whose name is not natural has a standard spelling that names no member. */
  lemma SharpMisses(i: nat)
    requires i < 12 && MemberNames[i] !in Naturals
    ensures Members[i].standard !in MemberNames
  {
  }

  /** On the seven natural names the member-name lookup agrees with the standard-spelling
      lookup of the later module. */
  lemma ByStandardNatural(s: string)
    requires s in Naturals
    ensures ByStandard(Name(s)) == MusicalNotes.ByStandard(s)
  {
    var i := NaturalAt(s);
    GetItemAt(i);
    MusicalNotes.ByStandardPitch(s);
    MusicalNotes.PitchOfMember(i);
  }

  /** A sharp's standard spelling is no member name: `"A#"` misses with KeyError. */
  lemma ByStandardSharpMisses()
    ensures ByStandard(Name("A#")) == Err(KeyError)
    ensures MusicalNotes.ByStandard("A#").Ok?
  {
    SharpMisses(1);
    MusicalNotes.PitchOfMember(1);
  }

  /** `get_full_octave_from_starting_note`: looks the note up by member name, then looks
      the member up again by its standard spelling, so only the seven natural names pass
      both lookups; the result is the members rotated to start there. */
  function FullOctave(k: Key): (r: Result<seq<MusicalNote>>)
    ensures r.Ok? <==> k.Name? && k.name in Naturals
    ensures r.Err? ==> r.error == (if k.Note? then TypeError else KeyError)
    ensures r.Ok? ==> |r.value| == 12 && r.value[0].standard == k.name
    ensures r.Ok? ==> multiset(r.value) == multiset(Members)
    ensures r.Ok? ==> r.value == Rotate(Members, GetItem(k).value)
  {
    match ByStandard(k)
    case Err(e) =>
      NaturalsAreNames();
      Err(e)
    case Ok(n) =>
      var i := GetItem(k).value;
      if MemberNames[i] in Naturals then
        NaturalMember(i);
        GetItemAt(i);
        RotateMultiset(Members, i);
        Ok(Rotate(Members, i))
      else
        SharpMisses(i);
        Err(KeyError)
  }

  /** Where both succeed, the octave is the one the later module builds. */
  lemma FullOctaveAgrees(s: string)
    requires s in Naturals
    ensures FullOctave(Name(s)) == MusicalNotes.FullOctave(s)
  {
    var i := NaturalAt(s);
    GetItemAt(i);
    MusicalNotes.PitchOfMember(i);
  }

  /** `get_full_octave_of_notes_and_distance_from_starting_note` passes the `MusicalNote`
      it found on to `get_full_octave_from_starting_note`, whose lookup cannot hash it:
      the call never returns a map. */
  function DistanceMap(k: Key): (r: Result<Dict<string, int>>)
    ensures r.Err?
    ensures r.error == (if k.Name? && k.name !in MemberNames then KeyError else TypeError)
  {
    match ByStandard(k)
    case Err(e) => Err(e)
    case Ok(n) =>
      match FullOctave(Note(n))
      case Err(e) => Err(e)
      case Ok(octave) => Ok(ZipWithPositions(Standards(octave)))
  }
}
