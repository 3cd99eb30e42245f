/** Naming a chord from its diagram, after core/chord_name.py and
    src/chord_visualisation/core/chord_name.py: the root is the sounded position on
    the highest-numbered (lowest-pitched) string; every sounded note is measured in
    semitones above the root, each distance is turned into the intervals carrying it,
    and the combinations of intervals are matched against the chord formulas. */
module ChordNames {
  import opened Wrappers
  import opened Seqs
  import opened OrderedDict
  import opened Enums
  import opened Chromatic
  import MusicalNotes
  import opened Diagrams
  import opened Fretboard
  import opened Chords
  import opened ChordShapes

  /** `functools.reduce(lambda x, y: x if x.string > y.string else y, xs)`: raises
      TypeError on an empty list (no initial value). */
  function ReduceMaxString(xs: seq<FingerPosition>): (r: Result<FingerPosition>)
    ensures r.Err? <==> |xs| == 0
    ensures r.Err? ==> r.error == TypeError
  {
    if |xs| == 0 then Err(TypeError) else Ok(FoldMaxString(xs))
  }

  /** The fold itself, on a non-empty list: the accumulator is kept only while its
      string number is strictly greater than the next one's. */
  function FoldMaxString(xs: seq<FingerPosition>): (r: FingerPosition)
    requires |xs| > 0
    ensures forall i :: 0 <= i < |xs| ==> xs[i].stringNo <= r.stringNo
    ensures exists k :: 0 <= k < |xs| && xs[k] == r && forall j :: k < j < |xs| ==> xs[j].stringNo < r.stringNo
  {
    if |xs| == 1 then xs[0]
    else
      var init := xs[..|xs| - 1];
      var y := xs[|xs| - 1];
      var a := FoldMaxString(init);
      assert forall i :: 0 <= i < |init| ==> xs[i] == init[i];
      if a.stringNo > y.stringNo then a else y
  }

  /** The position found is the last one holding the highest string number: it is
      determined by the list alone, whatever fold produced it. */
  lemma FoldMaxStringIsLastMax(xs: seq<FingerPosition>, k: nat)
    requires k < |xs|
    requires forall i :: 0 <= i < |xs| ==> xs[i].stringNo <= xs[k].stringNo
    requires forall j :: k < j < |xs| ==> xs[j].stringNo < xs[k].stringNo
    ensures FoldMaxString(xs) == xs[k]
  {
    var r := FoldMaxString(xs);
    var k' :| 0 <= k' < |xs| && xs[k'] == r && forall j :: k' < j < |xs| ==> xs[j].stringNo < r.stringNo;
    assert k' == k;
  }

  /** `[FingerPosition(i, 0) for i in diagram.open_strings]`: open strings played at
      fret 0. */
  function OpenPositions(openStrings: seq<int>): (r: seq<FingerPosition>)
    ensures |r| == |openStrings|
    ensures forall i :: 0 <= i < |r| ==> r[i] == FingerPosition(openStrings[i], 0)
  {
    seq(|openStrings|, i requires 0 <= i < |openStrings| => FingerPosition(openStrings[i], 0))
  }

  /** Every sounded position of a diagram: the fretted ones, then the open strings. */
  function Sounded(d: ChordDiagram): seq<FingerPosition> {
    d.shape + OpenPositions(d.openStrings)
  }

  /** The root of a chord and its name. */
  datatype Root = Root(position: FingerPosition, name: string)

  /** `identify_root_note(diagram)` (the same in both versions): the sounded position
      with the highest string number, the later one on a tie, and the note `get_note`
      gives there. Muted strings play no part. A diagram with nothing sounded raises
      TypeError in `reduce`; `get_note` may raise for a string off the fretboard. */
  function IdentifyRootNote(fb: FretboardNotes, d: ChordDiagram): (r: Result<Root>)
    ensures |Sounded(d)| == 0 ==> r == Err(TypeError)
    ensures r.Ok? ==> r.value.position in Sounded(d)
    ensures r.Ok? ==> forall p :: p in Sounded(d) ==> p.stringNo <= r.value.position.stringNo
    ensures r.Ok? ==> GetNote(fb, r.value.position.stringNo, r.value.position.fret) == Ok(r.value.name)
  {
    var all := Sounded(d);
    var m :- ReduceMaxString(all);
    var name :- GetNote(fb, m.stringNo, m.fret);
    Ok(Root(m, name))
  }

  /** Ties go to the later position: the root is the last sounded position on the
      highest string, and on a fretboard whose `get_note` answers there the search
      succeeds. */
  lemma RootIsLastOnHighestString(fb: FretboardNotes, d: ChordDiagram, k: nat)
    requires k < |Sounded(d)|
    requires forall i :: 0 <= i < |Sounded(d)| ==> Sounded(d)[i].stringNo <= Sounded(d)[k].stringNo
    requires forall j :: k < j < |Sounded(d)| ==> Sounded(d)[j].stringNo < Sounded(d)[k].stringNo
    requires GetNote(fb, Sounded(d)[k].stringNo, Sounded(d)[k].fret).Ok?
    ensures IdentifyRootNote(fb, d) ==
      Ok(Root(Sounded(d)[k], GetNote(fb, Sounded(d)[k].stringNo, Sounded(d)[k].fret).value))
  {
    FoldMaxStringIsLastMax(Sounded(d), k);
  }

  /** Muting strings never changes the root. */
  lemma MutedIgnored(fb: FretboardNotes, d: ChordDiagram, muted: seq<int>)
    ensures IdentifyRootNote(fb, d) == IdentifyRootNote(fb, ChordDiagram(d.shape, d.openStrings, muted))
  {
    assert Sounded(d) == Sounded(ChordDiagram(d.shape, d.openStrings, muted));
  }

  /** `_add_open_strings_to_diagram`: the shape extended with the open strings at fret
      0; the open and muted lists are kept. The source extends the caller's list in
      place; here the extended diagram is a new value. */
  function AddOpenStrings(d: ChordDiagram): (r: ChordDiagram)
    ensures r.openStrings == d.openStrings && r.mutedStrings == d.mutedStrings
    ensures |r.shape| == |d.shape| + |d.openStrings|
    ensures r.shape[..|d.shape|] == d.shape
    ensures forall i :: 0 <= i < |d.openStrings| ==> r.shape[|d.shape| + i] == FingerPosition(d.openStrings[i], 0)
  {
    ChordDiagram(d.shape + OpenPositions(d.openStrings), d.openStrings, d.mutedStrings)
  }

  /** The extended shape is what the root search reads: with the opens folded into the
      shape and no open strings left over, the same root is found. */
  lemma AddOpenStringsKeepsRoot(fb: FretboardNotes, d: ChordDiagram)
    ensures var e := AddOpenStrings(d);
      IdentifyRootNote(fb, ChordDiagram(e.shape, [], e.mutedStrings)) == IdentifyRootNote(fb, d)
  {
    var e := AddOpenStrings(d);
    assert Sounded(ChordDiagram(e.shape, [], e.mutedStrings)) == e.shape + [] == Sounded(d);
  }

  /** `[f(x) for x in xs]` where `f` may raise: the first element `f` rejects raises
      its error; otherwise the list of results. */
  function MapResult<A, B>(xs: seq<A>, f: A -> Result<B>): (r: Result<seq<B>>)
    ensures r.Ok? <==> forall i :: 0 <= i < |xs| ==> f(xs[i]).Ok?
    ensures r.Ok? ==> |r.value| == |xs|
    ensures r.Ok? ==> forall i :: 0 <= i < |xs| ==> f(xs[i]) == Ok(r.value[i])
    ensures r.Err? ==> exists k :: (0 <= k < |xs| && f(xs[k]).Err? && r.error == f(xs[k]).error
      && forall j :: 0 <= j < k ==> f(xs[j]).Ok?)
  {
    if |xs| == 0 then Ok([])
    else
      assert forall i :: 1 <= i < |xs| ==> xs[i] == xs[1..][i - 1];
      match f(xs[0])
      case Err(e) => Err(e)
      case Ok(y) =>
        match MapResult(xs[1..], f)
        case Err(e) =>
          var k :| 0 <= k < |xs[1..]| && f(xs[1..][k]).Err? && e == f(xs[1..][k]).error
            && forall j :: 0 <= j < k ==> f(xs[1..][j]).Ok?;
          assert f(xs[k + 1]).Err? && forall j :: 0 <= j < k + 1 ==> f(xs[j]).Ok?;
          Err(e)
        case Ok(ys) => Ok([y] + ys)
  }

  /** `[self.fretboard.get_note(pos.string, pos.fret) for pos in diagram.shape]`. */
  function OtherNotes(fb: FretboardNotes, shape: seq<FingerPosition>): (r: Result<seq<string>>)
    ensures r.Ok? <==> forall i :: 0 <= i < |shape| ==> GetNote(fb, shape[i].stringNo, shape[i].fret).Ok?
    ensures r.Ok? ==> |r.value| == |shape|
    ensures r.Ok? ==> forall i :: 0 <= i < |shape| ==> GetNote(fb, shape[i].stringNo, shape[i].fret) == Ok(r.value[i])
  {
    MapResult(shape, (p: FingerPosition) => GetNote(fb, p.stringNo, p.fret))
  }

  /** `distance_map(root)[n]`, the map being that of src/chord_visualisation/core/notes.py:
      ValueError for a root that is not a standard name, KeyError for a note that is
      not; otherwise the note's place above the root. */
  function DistanceOf(root: string, n: string): (r: Result<int>)
    ensures r.Ok? <==> root in Notes && n in Notes
    ensures r.Err? ==> r.error == if root !in Notes then ValueError else KeyError
    ensures r.Ok? ==> 0 <= r.value < 12 && r.value == Distance(root, n)
  {
    MusicalNotes.DistanceMapIsScale(root);
    match MusicalNotes.DistanceMap(root)
    case Err(e) => Err(e)
    case Ok(m) =>
      ScaleKeys(root);
      match Get(m, n)
      case None => Err(KeyError)
      case Some(v) =>
        ScaleDistanceOf(root, n);
        Ok(v)
  }

  /** `_calculate_distances(notes)`: the distance of every note above the root, each
      between 0 and 11. The map is built afresh for each note, so nothing is raised for
      an empty list. */
  function CalculateDistances(root: string, notes: seq<string>): (r: Result<seq<int>>)
    ensures r.Ok? <==> |notes| == 0 || (root in Notes && forall i :: 0 <= i < |notes| ==> notes[i] in Notes)
    ensures r.Err? ==> r.error == if root !in Notes then ValueError else KeyError
    ensures r.Ok? ==> |r.value| == |notes|
    ensures r.Ok? ==> forall i :: 0 <= i < |notes| ==> 0 <= r.value[i] < 12 && r.value[i] == Distance(root, notes[i])
  {
    MapResult(notes, (n: string) => DistanceOf(root, n))
  }

  /** `[m for name, m in Intervals._member_map_.items() if m.value == dist]`. */
  function IntervalsFor(dist: int): (r: seq<Interval>)
    ensures forall j :: 0 <= j < |r| ==> r[j] in Keys(IntervalBody)
  {
    MembersWithValue(IntervalBody, dist)
  }

  /** The intervals found for a distance all carry that distance, and none are found
      exactly when no interval name is declared with it (1 and 2 semitones). */
  lemma IntervalsForDistance(dist: int)
    ensures forall m :: m in IntervalsFor(dist) ==> m in Keys(IntervalBody) && ValueOf(IntervalBody, m) == dist
    ensures IntervalsFor(dist) == [] <==> dist !in Values(IntervalBody)
  {
    IntervalBodyWellFormed();
    MembersWithValueCarry(IntervalBody, dist);
    MembersWithValueFromEmpty(IntervalBody, 0, dist);
    var vs := Values(IntervalBody);
    if dist in vs {
      var j :| 0 <= j < |vs| && vs[j] == dist;
      assert IntervalBody[j].val == dist;
    }
  }

  /** The index of the last occurrence of `x`. */
  function LastIndexOf<T(==)>(xs: seq<T>, x: T): (r: nat)
    requires x in xs
    ensures r < |xs| && xs[r] == x
    ensures forall j :: r < j < |xs| ==> xs[j] != x
  {
    if xs[|xs| - 1] == x then |xs| - 1
    else
      var init := xs[..|xs| - 1];
      assert x in init by {
        var k :| 0 <= k < |xs| && xs[k] == x;
        assert init[k] == x;
      }
      LastIndexOf(init, x)
  }

  /** The intervals `_create_intervals` leaves under the root, after `i` pairs: reset
      to `[P1]` in every round, then overwritten when the round's note is the root. */
  function RootEntry(root: string, notes: seq<string>, dists: seq<int>, i: nat): seq<Interval>
    requires 0 < i <= |notes| && i <= |dists|
  {
    if notes[i - 1] == root then IntervalsFor(dists[i - 1]) else [P1]
  }

  /** The keys the loop of `_create_intervals` has written after the notes `ps`: none
      before the first note; then the root and the distinct notes in order of first
      appearance. */
  ghost predicate FilledKeys<K(!new), V>(d: Dict<K, V>, root: K, ps: seq<K>) {
    WellFormed(d) &&
    (|ps| == 0 ==> d == []) &&
    (|ps| > 0 ==> Keys(d) == Dedup([root] + ps))
  }

  /** The root's entry after the pairs of `ps` and `es`: `rootEntry`, unless the last
      note is the root itself. */
  ghost predicate FilledRoot<K(!new), V>(d: Dict<K, V>, root: K, rootEntry: V, ps: seq<K>, es: seq<V>)
    requires |es| == |ps|
  {
    |ps| > 0 ==> Get(d, root) == Some(if ps[|ps| - 1] == root then es[|ps| - 1] else rootEntry)
  }

  /** Every note other than the root holds the entry paired with its last appearance. */
  ghost predicate FilledOthers<K(!new), V>(d: Dict<K, V>, root: K, ps: seq<K>, es: seq<V>)
    requires |es| == |ps|
  {
    forall k :: k in ps && k != root ==> Get(d, k) == Some(es[LastIndexOf(ps, k)])
  }

  /** What the loop of `_create_intervals` has built after the pairs of `ps` and `es`. */
  ghost predicate Filled<K(!new), V>(d: Dict<K, V>, root: K, rootEntry: V, ps: seq<K>, es: seq<V>)
    requires |es| == |ps|
  {
    FilledKeys(d, root, ps) && FilledRoot(d, root, rootEntry, ps, es) && FilledOthers(d, root, ps, es)
  }

  /** Writing the root's entry leaves the keys at the root and the notes so far. */
  lemma PutRootKeys<K(!new), V>(d: Dict<K, V>, root: K, rootEntry: V, ps: seq<K>)
    requires FilledKeys(d, root, ps)
    ensures WellFormed(Put(d, root, rootEntry))
    ensures Keys(Put(d, root, rootEntry)) == Dedup([root] + ps)
  {
    if |ps| == 0 {
      DedupDistinct([root]);
      assert [root] + ps == [root];
    } else {
      assert ([root] + ps)[0] == root;
    }
  }

  /** One round of the loop, on the keys: the root first, then the note. */
  lemma FillKeysStep<K(!new), V>(d: Dict<K, V>, root: K, rootEntry: V, ps: seq<K>, note: K, e: V)
    requires FilledKeys(d, root, ps)
    ensures FilledKeys(Put(Put(d, root, rootEntry), note, e), root, ps + [note])
  {
    PutRootKeys(d, root, rootEntry, ps);
    DedupConsSnoc(root, ps, note);
  }

  /** One round of the loop, on the notes other than the root. */
  lemma FillOthersStep<K(!new), V>(d: Dict<K, V>, root: K, rootEntry: V, ps: seq<K>, es: seq<V>, note: K, e: V)
    requires |es| == |ps| && FilledOthers(d, root, ps, es)
    ensures FilledOthers(Put(Put(d, root, rootEntry), note, e), root, ps + [note], es + [e])
  {
    var d2 := Put(Put(d, root, rootEntry), note, e);
    var ps', es' := ps + [note], es + [e];
    forall k | k in ps' && k != root
      ensures Get(d2, k) == Some(es'[LastIndexOf(ps', k)])
    {
      if k != note {
        LastIndexOfSnoc(ps, note, k);
      }
    }
  }

  /** One round of the loop: `d[root] = rootEntry`, then `d[note] = e`. */
  lemma FillStep<K(!new), V>(d: Dict<K, V>, root: K, rootEntry: V, ps: seq<K>, es: seq<V>, note: K, e: V)
    requires |es| == |ps| && Filled(d, root, rootEntry, ps, es)
    ensures Filled(Put(Put(d, root, rootEntry), note, e), root, rootEntry, ps + [note], es + [e])
  {
    FillKeysStep(d, root, rootEntry, ps, note, e);
    FillOthersStep(d, root, rootEntry, ps, es, note, e);
  }

  /** The loop of `_create_intervals` over the pairs of `notes` and `entries`: each
      round sets the root's entry to `rootEntry`, then the note's entry to the one
      paired with it. */
  method FillEntries<K(==, !new), V>(root: K, rootEntry: V, notes: seq<K>, entries: seq<V>)
    returns (d: Dict<K, V>)
    requires |entries| == |notes|
    ensures Filled(d, root, rootEntry, notes, entries)
  {
    d := [];
    for i := 0 to |notes|
      invariant Filled(d, root, rootEntry, notes[..i], entries[..i])
    {
      FillStep(d, root, rootEntry, notes[..i], entries[..i], notes[i], entries[i]);
      PrefixSnoc(notes, i);
      PrefixSnoc(entries, i);
      d := Put(Put(d, root, rootEntry), notes[i], entries[i]);
    }
    assert notes[..|notes|] == notes && entries[..|notes|] == entries;
  }

  /** Appending a different element does not move the last occurrence of `k`. */
  lemma LastIndexOfSnoc<T>(xs: seq<T>, x: T, k: T)
    requires k in xs + [x] && k != x
    ensures k in xs && LastIndexOf(xs + [x], k) == LastIndexOf(xs, k)
  {
    var ys := xs + [x];
    var j :| 0 <= j < |ys| && ys[j] == k;
    assert xs[j] == k;
    var a := LastIndexOf(ys, k);
    var b := LastIndexOf(xs, k);
    assert ys[b] == k;
    assert xs[a] == k;
  }

  /** `_create_intervals(root_note, notes, distances)`, over `zip(notes, distances)`:
      the root's entry is `[P1]` in every round and each note's entry is the intervals
      carrying its distance. With no pairs the dict stays empty. Otherwise its keys are
      the root and then the distinct notes in order of first appearance; each note
      other than the root holds the intervals of the distance paired with its last
      appearance. */
  method CreateIntervals(root: string, notes: seq<string>, dists: seq<int>)
    returns (d: Dict<string, seq<Interval>>)
    ensures var n := if |notes| < |dists| then |notes| else |dists|;
      (n == 0 ==> d == []) &&
      (n > 0 ==> Keys(d) == Dedup([root] + notes[..n]) && Get(d, root) == Some(RootEntry(root, notes, dists, n))) &&
      forall k :: k in notes[..n] && k != root ==>
        Get(d, k) == Some(IntervalsFor(dists[LastIndexOf(notes[..n], k)]))
    ensures WellFormed(d)
  {
    var n := if |notes| < |dists| then |notes| else |dists|;
    var entries := seq(n, i requires 0 <= i < n => IntervalsFor(dists[i]));
    d := FillEntries(root, [P1], notes[..n], entries);
    assert forall k :: k in notes[..n] && k != root ==> Get(d, k) == Some(entries[LastIndexOf(notes[..n], k)]);
  }
}
