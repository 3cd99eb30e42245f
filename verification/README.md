# chord_visualisation: a Dafny model of the chord core

This project models the music-theory core of `chord_visualisation`, a Python program
that finds guitar chord shapes for a chord symbol and names the chord a diagram
shows. The model covers:

- the pitch model: the twelve-note chromatic scale rotated to a root
  (`ChromaticScale`), the seven-letter cycle (`MajorScale`), and scales built from
  whole and half steps (`MusicScale`);
- both generations of the `ChromaticNotes` enum (`core/notes.py` and
  `src/chord_visualisation/core/notes.py`);
- the `Intervals` and `ChordFormula` enums with Python's `Enum` aliasing, and the
  notes of a chord (`Chords.notes`);
- the fretboard: which note sounds at a string and fret, and the reverse search for
  where a note can be played (`FretboardNotes`);
- the shape search of `ChordShapes.get_shapes`: the chord-symbol reader, flat-name
  translation, the Cartesian product of positions, the playability filter and the sort
  by string;
- the chord-name generator of both `chord_name.py` files: the root search, the open
  strings, the distances and the intervals dict, and the matcher against the formulas.

Python semantics are stated explicitly:

- Every exception the code can raise is a `Result` error (`ValueError`, `KeyError`,
  `IndexError`, `TypeError`, `UnboundLocalError`).
- A function that falls off its end is an `Option`.
- A Python `dict` is an ordered association list: assignment replaces a value in place
  or appends a new key.
- An `Enum` whose body repeats a value makes the later name an alias of the first
  member declared with that value.
- `_member_map_` lists alias names too, so `_create_intervals` may put the same member
  into a list twice, and `sus2` can never be the name the matcher returns.

Where the code does something its names or comments do not suggest, the model follows
the code:

- `get_note` reads `self._tuning[string - 1]` (`core/fretboard.py:25`), a Python list
  index. String numbers `1 - len(tuning) .. 0` therefore count from the end of the
  tuning, and only numbers outside `1 - len(tuning) .. len(tuning)` raise IndexError.
- `get_fret_position_from_note` (`core/fretboard.py:28-35`) enumerates the keys of a
  table keyed by open note, so its `string_no` counts distinct open notes, not
  strings. It also reports the frets of the first key a second time as string 6,
  whatever string 6 is tuned to.
- `Intervals` declares `m2 = 3  # minor second` and `M2 = 4  # major second`
  (`core/chords.py:9-10`). Those are the values of the thirds, so `m3` and `M3` become
  aliases of `m2` and `M2`, and no interval has one or two half-steps.
- `get_chord_name` takes exactly one character as the root, `# assuming standard chord
  notation` (`core/chord_shapes.py:27`), and its `if`/`elif` chain knows four qualities.
- The quality search compares `ChordFormula` values, which are tuples of ints, with
  tuples of `Intervals` members. Those never compare equal: see Findings.

Modules follow the source files. `Wrappers`, `Seqs`, `OrderedDict` and `Enums` hold the
Python semantics. `Chromatic`, `MajorScale`, `MusicScale`, `MusicalNotes`,
`LegacyNotes`, `Chords`, `Fretboard`, `Diagrams`, `ChordShapes`, `ChordNames` and
`ChordQuality` model the core.

## Model

| member | source | states |
|---|---|---|
| Seqs.JoinSplit | core/music_scale.py:35 | `pattern.split("-")` loses nothing: joining the pieces with the separator rebuilds the pattern |
| Seqs.SplitJoin | core/music_scale.py:35 | splitting recovers any list of separator-free pieces that were joined with the separator |
| Chromatic.Scale | core/chromatic.py:9-20 | `ChromaticScale(root).scale` raises ValueError exactly when the root is not one of the twelve names; otherwise it holds twelve keys, read from the root up to G# and then round again from A, numbered 0..11, and no key repeats |
| Chromatic.ScaleDistances | core/chromatic.py:13-20 | in the scale of any valid root, every one of the twelve names maps to its semitone distance above the root |
| Chromatic.ScaleStartsAtRoot | core/chromatic.py:13-20 | the root is the first key and maps to 0 |
| Chromatic.ScaleKeys | core/chromatic.py:16-20 | the keys are the twelve names, each exactly once |
| Chromatic.DistanceInjective | core/chromatic.py:16-18 | two names at the same distance above a root are the same name |
| Chromatic.NameAbove | core/fretboard.py:26 | the name `fret` semitones above a pitch is a chromatic name lying `fret mod 12` semitones above it |
| Chromatic.SelectFromScale | core/chords.py:53 | picking the scale's names whose distance is listed picks a name exactly when its distance above the root is listed |
| Chromatic.SelectFromScaleOrdered | core/chords.py:53 | the names picked come in strictly rising distance above the root |
| Chromatic.SelectFromScaleSpelled | core/chords.py:53 | for a rising list of distances, the names picked are those distances below the octave, each counted up from the root, in order |
| Chords.IntervalLookup | core/chords.py:6-23 | `Intervals[name]` gives the first member declared with the name's value: `m3` is `m2`, `M3` is `M2`, `d5` is `TT`, `A5` is `m6`, and every other name is its own member |
| Chords.FormulaCanonical | core/chords.py:27-40 | `sus2` repeats the tuple of `major` and is an alias of it; every other formula name is a member of its own |
| Chords.FormulaOf | core/chords.py:52 | `ChordFormula.__getitem__(quality).value` raises KeyError exactly for an undeclared name, and otherwise gives the tuple written for that name |
| Chords.ChordNotes | core/chords.py:43-53 | `Chords(key, quality).notes` raises ValueError for a key outside the chromatic names, else KeyError for an unknown quality; otherwise it gives exactly the names whose distance above the key is in the formula, in rising distance, starting with the key |
| Chords.ChordNotesSpelled | core/chords.py:50-53 | the notes of a chord are its formula's intervals below the octave, in order, each counted up from the key |
| Chords.SameBelowOctave | core/chords.py:53 | two formulas that agree below the octave give the same notes for every key |
| Chords.NinthsAsSevenths | core/chords.py:39-40 | `major9` and `dom9` give the notes of `major7` and `dom7`: the ninth (14 half-steps) is no distance of the scale |
| Chords.SusTwoAsMajor | core/chords.py:33 | a `sus2` chord has the notes of the major chord |
| MajorScale.InitScale | core/major_scale.py:9-12 | `_init_scale` raises ValueError exactly for a root that is not one of the seven letters; otherwise it gives fourteen letters from the root, each a letter, the second seven repeating the first |
| MajorScale.InitScaleRotates | core/major_scale.py:9-12 | the first seven are the letter cycle rotated to the root: every letter exactly once |
| MajorScale.ScaleOfC | core/major_scale.py:16-18 | the module's example: the scale of C reads C D E F G A B |
| MusicScale.PatternToIntervals | core/music_scale.py:21-43 | `_pattern_to_intervals` gives the running sums of the steps from 0: one more entry than pieces, strictly rising, ending at the total |
| MusicScale.PrefixSumsRise | core/music_scale.py:36-43 | running sums of positive steps rise strictly from 0 to their total |
| MusicScale.MajorIntervals | core/music_scale.py:8 | the major pattern gives the half-step counts 0 2 4 5 7 9 11 12 |
| MusicScale.MinorIntervals | core/music_scale.py:9 | the minor pattern gives the half-step counts 0 2 3 5 7 8 10 12 |
| MusicScale.SevenBelowOctave | core/music_scale.py:57-59 | of both patterns' running sums, exactly the first seven lie below the octave |
| MusicScale.ScaleOf | core/music_scale.py:45-60 | `MusicScale(key).scale(pattern)` raises ValueError exactly for a key outside the chromatic names; otherwise it gives exactly the names at a running-sum distance, starting with the key, spelled upward from the key in the order of the sums below the octave |
| MusicScale.SevenNoteScale | core/music_scale.py:7-9 | for the major and the minor pattern a scale has seven names, the key first and name `i` at the `i`-th running sum above the key; the closing octave adds no eighth name |
| MusicalNotes.ByStandard | src/chord_visualisation/core/notes.py:41-50 | `get_note_by_standard_notation` raises IndexError exactly for a spelling no member has; otherwise it gives the member with that spelling |
| MusicalNotes.ByStandardPitch | src/chord_visualisation/core/notes.py:41-50 | the member found for a standard spelling is the one at that name's position in the chromatic scale |
| MusicalNotes.ByAlternative | src/chord_visualisation/core/notes.py:53-64 | `get_note_by_alternative_notation` returns None exactly when no member has that alternative spelling, and otherwise the first member that has it |
| MusicalNotes.ByAlternativeOf | src/chord_visualisation/core/notes.py:53-64 | looking a member up by its own alternative spelling finds that member |
| MusicalNotes.FullOctave | src/chord_visualisation/core/notes.py:67-85 | `get_full_octave_from_starting_note` raises ValueError exactly for an unknown starting name; otherwise it gives the twelve members rotated to start at that name |
| MusicalNotes.FullOctavePermutes | src/chord_visualisation/core/notes.py:79-85 | every octave holds each member exactly once |
| MusicalNotes.DistanceMapIsScale | src/chord_visualisation/core/notes.py:88-100 | the distance map is the chromatic scale of `ChromaticScale`, error included |
| MusicalNotes.StandardNamesAreKeys | src/chord_visualisation/core/notes.py:103-112 | the standard names of an octave are the distance map's keys in order: the chromatic names rotated to the starting note |
| MusicalNotes.StandardFromAlternative | src/chord_visualisation/core/notes.py:115-129 | a known alternative spelling becomes that member's standard spelling, and any other string comes back unchanged (the caught AttributeError) |
| MusicalNotes.StandardFromAlternativeIdempotent | src/chord_visualisation/core/notes.py:115-129 | translating to the standard spelling twice is the same as translating once |
| MusicalNotes.StandardAlsoAlternative | src/chord_visualisation/core/notes.py:27-38 | a spelling that is one member's standard spelling and another's alternative spelling belongs to one note: both members have the same standard spelling |
| LegacyNotes.GetItem | core/notes.py:29 | `ChromaticNotes[k]` raises TypeError for a `MusicalNote` argument, which is unhashable, and KeyError for a string that names no member |
| LegacyNotes.ByStandard | core/notes.py:27-29 | despite its name, `get_note_by_standard_notation` succeeds exactly on member names such as `A_sharp`, not on spellings such as `A#` |
| LegacyNotes.ByStandardNatural | core/notes.py:27-29 | on the seven natural names it agrees with the later module's lookup by spelling |
| LegacyNotes.ByStandardSharpMisses | core/notes.py:27-29 | `"A#"` misses with KeyError, where the later module finds it |
| LegacyNotes.FindAlternative | core/notes.py:33-35 | the loop returns a member with the alternative spelling, and falls off its end, giving None, exactly when no member has it |
| LegacyNotes.FindAlternativeFirst | core/notes.py:33-35 | the loop stops at the first member, in declaration order, whose alternative spelling matches |
| LegacyNotes.ByAlternative | core/notes.py:31-35 | `get_note_by_alternative_notation` gives None exactly when no member has the alternative spelling, and otherwise a member with that spelling |
| LegacyNotes.ByAlternativeAgrees | core/notes.py:31-35 | the lookup by alternative spelling gives the same result as the later module's, for every spelling |
| LegacyNotes.FullOctave | core/notes.py:37-41 | the octave succeeds exactly on the seven natural names and is then the members rotated to that name |
| LegacyNotes.FullOctaveAgrees | core/notes.py:37-41 | where it succeeds, it is the octave the later module builds |
| LegacyNotes.DistanceMap | core/notes.py:43-49 | the distance map always raises: KeyError for a string naming no member, otherwise TypeError, because the note found is passed back into `ChromaticNotes[...]` |
| Fretboard.Populate | core/fretboard.py:15-22 | `_populate_all_strings` raises ValueError exactly when an open note is not chromatic (and frets are to be filled); its keys are the distinct open notes in order of first appearance, each with `max_frets + 1` names, fret `f` sounding `f` semitones above the open note |
| Fretboard.New | core/fretboard.py:6-13 | the constructor succeeds under the same condition as `_populate_all_strings` and keeps the tuning and the fret count |
| Fretboard.DefaultIsNew | core/fretboard.py:8-9 | the default fretboard is the one built for standard tuning and 13 frets |
| Fretboard.GetNote | core/fretboard.py:24-26 | `get_note` raises IndexError exactly when the string number is outside `1 - len(tuning) .. len(tuning)`; otherwise the open note is `tuning[string - 1]` for a positive number and `tuning[len(tuning) + string - 1]` for one at or below 0. The call succeeds exactly when that open note is in the chromatic scale, and then gives the chromatic name `fret mod 12` semitones above it; otherwise it raises ValueError |
| Fretboard.GetNoteWraps | core/fretboard.py:25 | a string number at or below 0 plays the same note as the number `len(tuning)` higher |
| Fretboard.GetNotePeriodic | core/fretboard.py:24-26 | a string sounds the same note twelve frets higher |
| Fretboard.GetNoteFromTable | core/fretboard.py:15-26 | on a constructed fretboard, `get_note` reads the row `_populate_all_strings` stored for that string's open note |
| Fretboard.StandardGetNote | src/chord_visualisation/tests/test_fretboard.py:10-11 | under standard tuning, string 3 at fret 3 sounds A# |
| Fretboard.FretsOf | core/fretboard.py:31 | the frets listed are exactly those of the row that sound the note, in rising order |
| Fretboard.FretPositionsMember | core/fretboard.py:28-35 | the search reports string `k` for the `k`-th entry of the table, and string 6 again for the first entry |
| Fretboard.ConstructedPositions | core/fretboard.py:28-35 | on any constructed fretboard, string `k` of the answer stands for the `k`-th distinct open note and string 6 for the first, each on frets `0..max_frets` |
| Fretboard.OuterGetNote | core/fretboard.py:24-26 | when string 6 carries the same open note as string 1, `get_note` on string 6 sounds whatever string 1 sounds at that fret |
| Fretboard.OuterPositions | core/fretboard.py:28-35 | under a six-string tuning whose outer strings agree and whose first five differ, the search reports a position exactly when it is on the board and `get_note` sounds the note there |
| Fretboard.StandardPositions | core/fretboard.py:28-35 | under standard tuning the search is sound and complete with respect to `get_note` |
| Fretboard.DefaultPositionsOfE | src/chord_visualisation/tests/test_fretboard.py:14-24 | on the default fretboard E is found at (1,0), (1,12), (6,0), (6,12), (2,5), (3,9), (4,2), (5,7), in that order |
| Fretboard.DropDMisreports | core/fretboard.py:33-34 | with string 6 tuned to D, the search still reports (6,0) for E, where `get_note` sounds D |
| ChordShapes.TranslatorTable | core/chord_shapes.py:8-16 | every name in `note_translator` is a chromatic name, and no chromatic name is translated |
| ChordShapes.Translate | core/chord_shapes.py:48 | `note_translator.get(n) or n` leaves an unlisted name unchanged and turns a listed flat into its chromatic name |
| ChordShapes.TranslateIdempotent | core/chord_shapes.py:48 | translating twice is translating once |
| ChordShapes.TranslatorPitches | core/chord_shapes.py:8-16 | five flats become the name a semitone below their letter; `C♭` and `F♭` become the letter itself |
| ChordShapes.GetChordName | core/chord_shapes.py:26-38 | `get_chord_name` raises IndexError for the empty string and otherwise takes the first character as the root; it raises UnboundLocalError exactly when none of the quality tests holds |
| ChordShapes.ChordNamePrecedence | core/chord_shapes.py:29-37 | `major` (or a one-character symbol) wins over everything, `minor` (or `Xm`) over the suspended qualities, and `sus4` over `sus2` |
| ChordShapes.ChordNameExamples | core/chord_shapes.py:26-38 | `Am` reads as A minor, `Dsus4` as D suspended_4, and `Cm7` raises UnboundLocalError |
| ChordShapes.GetChordNotes | core/chord_shapes.py:40-42 | `get_chord_notes` always raises TypeError: `Chords(root_note)` misses its quality argument |
| ChordShapes.GetShapes | core/chord_shapes.py:44-49 | `get_shapes` never returns shapes: it raises the symbol reader's error, or else the TypeError of `get_chord_notes` |
| ChordShapes.ProductMember | core/chord_shapes.py:55 | a combination is in `itertools.product` exactly when it takes one element from each list, in list order |
| ChordShapes.Span | core/chord_shapes.py:61-62 | `max - min` of the frets is the largest difference between two frets of the combination |
| ChordShapes.StringSetDistinct | core/chord_shapes.py:68-71 | the set of strings is as large as the combination exactly when no string repeats |
| ChordShapes.SortByString | core/chord_shapes.py:77-78 | the sort by string number orders the positions by string and rearranges them without loss or gain |
| ChordShapes.SortedPlayable | core/chord_shapes.py:74-78 | a kept combination, once sorted, keeps its fret span and has strictly rising string numbers |
| ChordShapes.Kept | core/chord_shapes.py:60-78 | a shape survives the filter exactly when it is the sorted form of a combination whose span is below three and whose strings all differ |
| ChordShapes.ShapesFromNotes | core/chord_shapes.py:48-79 | the search raises ValueError exactly when there are no notes (`max` of an empty sequence); otherwise every shape has one position per note, a fret span below three and strictly rising strings |
| ChordShapes.ShapesSound | core/chord_shapes.py:48-79 | every shape found is a rearrangement of one reported position per translated chord note, spanning fewer than three frets, on distinct strings |
| ChordShapes.ShapesComplete | core/chord_shapes.py:48-79 | every choice of one reported position per translated chord note that spans fewer than three frets on distinct strings is found, sorted by string |
| ChordShapes.StandardShapesSound | core/chord_shapes.py:48-79 | under standard tuning every position of a found shape is on the board and sounds one of the translated chord notes |
| ChordNames.ReduceMaxString | src/chord_visualisation/core/chord_name.py:39 | `reduce` over the positions raises TypeError exactly for an empty list |
| ChordNames.FoldMaxString | src/chord_visualisation/core/chord_name.py:39 | the fold finds a position on the highest string number, with no later position on that string |
| ChordNames.FoldMaxStringIsLastMax | src/chord_visualisation/core/chord_name.py:39 | the position found is the last one on the highest string |
| ChordNames.IdentifyRootNote | src/chord_visualisation/core/chord_name.py:21-42 | `identify_root_note` raises TypeError when nothing sounds; otherwise the root is a sounded position on the highest string number, named by `get_note` |
| ChordNames.RootIsLastOnHighestString | core/chord_name.py:41-44 | both versions give a tie to the later position: the root is the last sounded position on the highest string |
| ChordNames.MutedIgnored | src/chord_visualisation/core/chord_name.py:35-42 | muting strings never changes the root |
| ChordNames.AddOpenStrings | src/chord_visualisation/core/chord_name.py:61-64 | `_add_open_strings_to_diagram` keeps the shape as a prefix and appends every open string at fret 0, in order |
| ChordNames.AddOpenStringsKeepsRoot | src/chord_visualisation/core/chord_name.py:61-64 | folding the open strings into the shape does not change the root that `identify_root_note` finds |
| ChordNames.OtherNotes | src/chord_visualisation/core/chord_name.py:69-71 | `_get_all_other_notes` succeeds exactly when `get_note` accepts every position, and then names each in order |
| ChordNames.DistanceOf | src/chord_visualisation/core/chord_name.py:75-77 | looking a note up in the root's distance map raises ValueError for a root outside the scale and KeyError for a note outside it; otherwise it gives the note's distance above the root |
| ChordNames.CalculateDistances | src/chord_visualisation/core/chord_name.py:73-79 | `_calculate_distances` succeeds exactly when there are no notes or the root and all notes are chromatic names; it then gives each note's distance above the root |
| ChordNames.IntervalsForDistance | src/chord_visualisation/core/chord_name.py:89 | every interval found for a distance carries that distance, and none is found exactly when no interval carries it |
| ChordNames.FillEntries | src/chord_visualisation/core/chord_name.py:83-90 | the loop writes the root's entry and then the note's entry in every round, leaving each note's last entry |
| ChordNames.CreateIntervals | src/chord_visualisation/core/chord_name.py:81-91 | `_create_intervals` leaves an empty dict for no pairs; otherwise its keys are the root and then the distinct notes in order of first appearance, and each non-root note holds the intervals of the distance paired with its last appearance |
| ChordQuality.IntervalsForValue | src/chord_visualisation/core/chord_name.py:89 | every member listed for a distance has that distance as its value |
| ChordQuality.IntervalsForEmpty | src/chord_visualisation/core/chord_name.py:89 | below the octave, a distance gets no interval exactly when it is one or two half-steps |
| ChordQuality.SortedValues | src/chord_visualisation/core/chord_name.py:105 | sorting a combination by value gives its values rearranged into non-decreasing order |
| ChordQuality.Quality | src/chord_visualisation/core/chord_name.py:102-111 | the matcher (values compared) returns None exactly when no combination matches any formula; otherwise it returns the first formula name matched by the first matching combination |
| ChordQuality.QualitySound | src/chord_visualisation/core/chord_name.py:102-111 | a quality found names a formula whose values, as often, some combination holds |
| ChordQuality.QualityComplete | src/chord_visualisation/core/chord_name.py:102-111 | when some combination holds the values of some formula, a quality is found |
| ChordQuality.QualityEmptyEntry | src/chord_visualisation/core/chord_name.py:102 | a note with no intervals leaves the product empty, so no quality is found |
| ChordQuality.QualityOfValues | src/chord_visualisation/core/chord_name.py:102-111 | when every combination holds the same values, the quality is the first formula name, aliases included, whose tuple holds them |
| ChordQuality.QualityAsWritten | src/chord_visualisation/core/chord_name.py:108-111 | the matcher as written finds a name exactly when some formula's tuple of ints equals a sorted tuple of `Intervals` members |
| ChordQuality.QualityAsWrittenNone | src/chord_visualisation/core/chord_name.py:110 | as written, the matcher never names a chord |
| ChordQuality.ExpectedQuality | src/chord_visualisation/core/chord_name.py:44-59 | the quality read off the notes directly is None when some note lies one or two half-steps above the root. Otherwise it is the first formula, in declaration order, whose tuple holds the distinct distances above the root, or None when no formula does |
| ChordQuality.CreatedQuality | src/chord_visualisation/core/chord_name.py:81-111 | for every chord, the matcher run on the dict `_create_intervals` builds gives the quality read off the notes directly |
| ChordQuality.PipelineQuality | src/chord_visualisation/core/chord_name.py:55-59 | the distances and intervals the pipeline computes lead to None with no notes, and otherwise to the quality read off the notes |
| ChordQuality.IdentifyChordQuality | src/chord_visualisation/core/chord_name.py:44-59 | with the matcher corrected as in Findings (values compared, not members), `indentify_chord_quality` raises exactly the error of the first failing step (`get_note`, then the distance map); with no positions it finds no quality, and otherwise the quality read off the sounded notes |
| ChordQuality.IdentifyChordQualityAsWritten | src/chord_visualisation/core/chord_name.py:44-59 | as written, `indentify_chord_quality` fails exactly where the corrected version fails, with the same error, and otherwise always returns None |
| ChordQuality.BodyAsWrittenNone | src/chord_visualisation/core/chord_name.py:110 | against the declared `ChordFormula` tuples, the matcher as written finds nothing, whatever the intervals dict |
| ChordQuality.ExpectedNeverSus2 | src/chord_visualisation/core/chord_name.py:109-111 | `sus2` is never the quality found: `major` holds the same tuple and comes first |
| ChordQuality.ExpectedNoNinths | core/chords.py:39-40 | `major9` and `dom9` are never found: a distance is below the octave, and their tuples hold 14 |
| ChordQuality.MajorTriadFinding | src/chord_visualisation/core/chord_name.py:110 | for C, E and G, comparing values finds `major`, where the code as written finds nothing |

## Left out

- `core/plot_chords.py` and `main.py`: they handle drawing and the command line.
- The `__main__` blocks and their `print` calls: they are demonstration runs, not behaviour.
- `MusicalNote.base_frequency` and `MusicalNote.octave`: no pitch operation reads these float and optional fields.
- The constructors of `ChordShapes` and `ChordNameGenerator`: they only build a `FretboardNotes`, which the operations take as a parameter.
- `ChordQuality.IdentifyChordQuality`: uses the corrected matcher `ChordQuality.Quality`, which compares values. The source compares ints with members and so returns None whenever no step raises; `ChordQuality.IdentifyChordQualityAsWritten` models that. It also takes the root name as a parameter. The source reads `self.root_note_name`, which only `identify_root_note` sets. Calling the quality search first raises AttributeError, and that path is not modelled.
- `ChordNames.AddOpenStrings`: returns a new diagram. The source extends `diagram.shape` in place, so a second call on the same diagram appends the open strings twice. That aliasing effect is not modelled.
- `ChordShapes.Kept`: states which shapes are kept but not their product order or their repetitions.
- `ChordShapes.ShapesFromNotes`: starts from the chord's notes. `get_chord_notes` always raises (`ChordShapes.GetChordNotes`), so no symbol reaches the search in the source.
- `_create_chromatic_scale` (`src/chord_visualisation/core/chord_name.py:66-67`): it is never called. The map it would build is `MusicalNotes.DistanceMap`.
- Choosing which strings of a shape sound open and which are muted: none of the modelled files implements this step.
- The test `test_get_root_note_string_from_chord_shape`: it calls a method `FretboardNotes` does not define.
- The matcher's formula table: `ChordQuality.Quality` takes it as a parameter. `ChordQuality.IdentifyChordQuality` fixes it to the `ChordFormula` body.

## Findings

| source | as written | input that shows it | evidently intended | confidence | as-written member | corrected member |
|---|---|---|---|---|---|---|
| src/chord_visualisation/core/chord_name.py:110 | `f[1]._value_ == tuple(c)` compares a `ChordFormula` value, which is a tuple of ints, with a tuple of `Intervals` members; an `Enum` member never equals an int, so the loop never returns a name | a C major triad, where `_create_intervals` gives `{C: [P1], E: [M2, M2], G: [P5]}`; every combination sorts to `(P1, M2, P5)`, which is not `(0, 4, 7)` | compare the members' values, so the combination `(0, 4, 7)` matches `major` | not executed | ChordQuality.QualityAsWritten | ChordQuality.Quality |
