/** The chord-diagram records the chord modules import from modules that are not
    part of this model: a finger position and a diagram of positions plus open and
    muted strings. Strings are numbered from 1 (high E) to 6 (low E). */
module Diagrams {

  /** `FingerPosition(string, fret)`, also the `(string, fret)` tuples of core/. */
  datatype FingerPosition = FingerPosition(stringNo: int, fret: int)

  /** `ChordDiagram(shape, open_strings, muted_strings)`. */
  datatype ChordDiagram = ChordDiagram(shape: seq<FingerPosition>, openStrings: seq<int>, mutedStrings: seq<int>)
}
