/** core/music_scale.py: a scale as a pattern of whole and half steps, turned into
    running sums of half-steps and then picked out of the chromatic scale of the key. */
module MusicScale {
  import opened Wrappers
  import opened Seqs
  import opened OrderedDict
  import opened Chromatic

  /** `ScalePatterns.major` */
  const MajorPattern: string := "W-W-H-W-W-W-H"
  /** `ScalePatterns.minor` */
  const MinorPattern: string := "W-H-W-W-H-W-W"

  /** `[1 if i == "H" else 2 for i in pattern.split("-")]`: a half step for every `H`
      token and a whole step for every other token, empty or not. */
  function Steps(pattern: string): (r: seq<int>)
    ensures |r| == |Split(pattern, '-')|
  {
    var tokens := Split(pattern, '-');
    seq(|tokens|, i requires 0 <= i < |tokens| => if tokens[i] == "H" then 1 else 2)
  }

  /** The sum of a list. */
  function Sum(xs: seq<int>): int {
    if |xs| == 0 then 0 else Sum(xs[..|xs| - 1]) + xs[|xs| - 1]
  }

  /** The running sums of `xs`, starting from the empty sum: entry `i` adds up the first
      `i` steps. */
  function PrefixSums(xs: seq<int>): (r: seq<int>)
    ensures |r| == |xs| + 1
    ensures forall i :: 0 <= i <= |xs| ==> r[i] == Sum(xs[..i])
  {
    seq(|xs| + 1, i requires 0 <= i <= |xs| => Sum(xs[..i]))
  }

  /** Running sums of positive steps rise strictly from 0 to the total. */
  lemma PrefixSumsRise(xs: seq<int>)
    requires forall i :: 0 <= i < |xs| ==> xs[i] > 0
    ensures PrefixSums(xs)[0] == 0 && PrefixSums(xs)[|xs|] == Sum(xs)
    ensures Increasing(PrefixSums(xs))
  {
    var r := PrefixSums(xs);
    assert xs[..|xs|] == xs;
    forall a, b | 0 <= a < b < |r|
      ensures r[a] < r[b]
    {
      SumsRise(xs, a, b);
    }
  }

  /** Adding more positive steps gives a larger sum. */
  lemma {:induction false} SumsRise(xs: seq<int>, a: nat, b: nat)
    requires forall i :: 0 <= i < |xs| ==> xs[i] > 0
    requires a < b <= |xs|
    ensures Sum(xs[..a]) < Sum(xs[..b])
    decreases b - a
  {
    assert xs[..b][..b - 1] == xs[..b - 1];
    if a < b - 1 {
      SumsRise(xs, a, b - 1);
    }
  }

  /** `_pattern_to_intervals`: starting from `[0]`, append the running sum after every
      step. The result is the running sums of the steps: it starts at 0, rises strictly
      and ends at the total number of half-steps. */
  method PatternToIntervals(pattern: string) returns (cumsum: seq<int>)
    ensures cumsum == PrefixSums(Steps(pattern))
    ensures |cumsum| == |Split(pattern, '-')| + 1
    ensures cumsum[0] == 0 && Increasing(cumsum)
    ensures cumsum[|cumsum| - 1] == Sum(Steps(pattern))
  {
    var inter := Steps(pattern);
    ghost var sums := PrefixSums(inter);
    cumsum := [0];
    var runningSum := 0;
    assert sums[0] == 0 && sums[..1] == [sums[0]];
    for i := 0 to |inter|
      invariant cumsum == sums[..i + 1]
      invariant runningSum == sums[i]
    {
      PrefixSumsStep(inter, i);
      PrefixSnoc(sums, i + 1);
      runningSum := runningSum + inter[i];
      cumsum := cumsum + [runningSum];
    }
    PrefixAll(sums);
    PrefixSumsRise(inter);
  }

  /** `MusicScale(key).scale(pattern)`: the names of the chromatic scale of `key` (which
      raises ValueError for a name outside it) whose distance above the key is one of
      the pattern's running sums. The key comes first; the rest follow in rising
      distance, each spelled from a running sum below the octave. */
  method ScaleOf(key: string, pattern: string) returns (r: Result<seq<string>>)
    ensures r.Err? <==> key !in Notes
    ensures r.Err? ==> r.error == ValueError
    ensures r.Ok? ==> forall n :: n in r.value <==>
      n in Notes && Distance(key, n) in PrefixSums(Steps(pattern))
    ensures r.Ok? ==> |r.value| > 0 && r.value[0] == key
    ensures r.Ok? ==> var fs := FilterIn(PrefixSums(Steps(pattern)), Octave);
      |r.value| == |fs| && forall i :: 0 <= i < |fs| ==> r.value[i] == NameAbove(PitchOf(key), fs[i])
  {
    var chroma := Scale(key);
    if chroma.Err? {
      return Err(chroma.error);
    }
    var intervals := PatternToIntervals(pattern);
    var resScale := Select(chroma.value, intervals);
    SelectFromScale(key, intervals);
    SelectFromScaleSpelled(key, intervals);
    InOctave(0);
    NameAboveRoot(key, 0);
    NameOfPitch(key);
    DistanceInjective(key, NameAbove(PitchOf(key), 0), key);
    r := Ok(resScale);
  }

  /** Each running sum adds one step to the one before. */
  lemma PrefixSumsStep(xs: seq<int>, i: nat)
    requires i < |xs|
    ensures PrefixSums(xs)[i + 1] == PrefixSums(xs)[i] + xs[i]
  {
    assert xs[..i + 1][..i] == xs[..i];
  }

  /** `W-W-H-W-W-W-H` splits into the tokens W, W, H, W, W, W, H. */
  lemma MajorTokens(p: string)
    requires p == MajorPattern
    ensures Split(p, '-') == ["W", "W", "H", "W", "W", "W", "H"]
  {
    var tokens := ["W", "W", "H", "W", "W", "W", "H"];
    assert Join(tokens[6..], '-') == "H";
    assert Join(tokens[5..], '-') == "W-H";
    assert Join(tokens[4..], '-') == "W-W-H";
    assert Join(tokens[3..], '-') == "W-W-W-H";
    assert Join(tokens[2..], '-') == "H-W-W-W-H";
    assert Join(tokens[1..], '-') == "W-H-W-W-W-H";
    assert Join(tokens, '-') == p;
    SplitJoin(tokens, '-');
  }

  /** The running sums of the major scale's steps 2, 2, 1, 2, 2, 2, 1. */
  lemma MajorSums(steps: seq<int>)
    requires |steps| == 7 && steps[0] == 2 && steps[1] == 2 && steps[2] == 1 && steps[3] == 2
    requires steps[4] == 2 && steps[5] == 2 && steps[6] == 1
    ensures PrefixSums(steps) == [0, 2, 4, 5, 7, 9, 11, 12]
  {
    var r := PrefixSums(steps);
    PrefixSumsStep(steps, 0);
    PrefixSumsStep(steps, 1);
    PrefixSumsStep(steps, 2);
    PrefixSumsStep(steps, 3);
    PrefixSumsStep(steps, 4);
    PrefixSumsStep(steps, 5);
    PrefixSumsStep(steps, 6);
  }

  /** The steps of a pattern that splits into W, W, H, W, W, W, H. */
  lemma MajorSteps(p: string)
    requires Split(p, '-') == ["W", "W", "H", "W", "W", "W", "H"]
    ensures |Steps(p)| == 7 && Steps(p)[0] == 2 && Steps(p)[1] == 2 && Steps(p)[2] == 1 && Steps(p)[3] == 2
    ensures Steps(p)[4] == 2 && Steps(p)[5] == 2 && Steps(p)[6] == 1
  {
  }

  /** The major pattern gives the half-step counts of the major scale. */
  lemma MajorIntervals(p: string)
    requires p == MajorPattern
    ensures PrefixSums(Steps(p)) == [0, 2, 4, 5, 7, 9, 11, 12]
  {
    MajorTokens(p);
    MajorSteps(p);
    MajorSums(Steps(p));
  }

  /** `W-H-W-W-H-W-W` splits into the tokens W, H, W, W, H, W, W. */
  lemma MinorTokens(p: string)
    requires p == MinorPattern
    ensures Split(p, '-') == ["W", "H", "W", "W", "H", "W", "W"]
  {
    var tokens := ["W", "H", "W", "W", "H", "W", "W"];
    assert Join(tokens[6..], '-') == "W";
    assert Join(tokens[5..], '-') == "W-W";
    assert Join(tokens[4..], '-') == "H-W-W";
    assert Join(tokens[3..], '-') == "W-H-W-W";
    assert Join(tokens[2..], '-') == "W-W-H-W-W";
    assert Join(tokens[1..], '-') == "H-W-W-H-W-W";
    assert Join(tokens, '-') == p;
    SplitJoin(tokens, '-');
  }

  /** The steps of a pattern that splits into W, H, W, W, H, W, W. */
  lemma MinorSteps(p: string)
    requires Split(p, '-') == ["W", "H", "W", "W", "H", "W", "W"]
    ensures |Steps(p)| == 7 && Steps(p)[0] == 2 && Steps(p)[1] == 1 && Steps(p)[2] == 2 && Steps(p)[3] == 2
    ensures Steps(p)[4] == 1 && Steps(p)[5] == 2 && Steps(p)[6] == 2
  {
  }

  /** The running sums of the minor scale's steps 2, 1, 2, 2, 1, 2, 2. */
  lemma MinorSums(steps: seq<int>)
    requires |steps| == 7 && steps[0] == 2 && steps[1] == 1 && steps[2] == 2 && steps[3] == 2
    requires steps[4] == 1 && steps[5] == 2 && steps[6] == 2
    ensures PrefixSums(steps) == [0, 2, 3, 5, 7, 8, 10, 12]
  {
    var r := PrefixSums(steps);
    PrefixSumsStep(steps, 0);
    PrefixSumsStep(steps, 1);
    PrefixSumsStep(steps, 2);
    PrefixSumsStep(steps, 3);
    PrefixSumsStep(steps, 4);
    PrefixSumsStep(steps, 5);
    PrefixSumsStep(steps, 6);
  }

  /** The minor pattern gives the half-step counts of the natural minor scale. */
  lemma MinorIntervals(p: string)
    requires p == MinorPattern
    ensures PrefixSums(Steps(p)) == [0, 2, 3, 5, 7, 8, 10, 12]
  {
    MinorTokens(p);
    MinorSteps(p);
    MinorSums(Steps(p));
  }

  /** Both patterns close the octave: the last running sum, 12, is the key again one
      octave up, which the chromatic scale does not hold, so a scale has seven names. */
  lemma SevenBelowOctave(sums: seq<int>)
    requires sums == [0, 2, 4, 5, 7, 9, 11, 12] || sums == [0, 2, 3, 5, 7, 8, 10, 12]
    ensures |FilterIn(sums, Octave)| == 7
    ensures FilterIn(sums, Octave) == sums[..7]
  {
    var fs := FilterIn(sums, Octave);
    var low := sums[..7];
    assert Increasing(sums);
    assert Increasing(low);
    forall x
      ensures x in fs <==> x in low
    {
      InOctave(x);
    }
    IncreasingUnique(fs, low);
  }

  /** The running sums below the octave of the major and the minor pattern. */
  lemma PatternSums(pattern: string)
    requires pattern == MajorPattern || pattern == MinorPattern
    ensures FilterIn(PrefixSums(Steps(pattern)), Octave) ==
      if pattern == MajorPattern then [0, 2, 4, 5, 7, 9, 11] else [0, 2, 3, 5, 7, 8, 10]
  {
    if pattern == MajorPattern {
      MajorIntervals(pattern);
    } else {
      MinorIntervals(pattern);
    }
    SevenBelowOctave(PrefixSums(Steps(pattern)));
  }

  /** A scale whose pattern has seven running sums below the octave: seven names, the
      key first, each spelled from its running sum. */
  method ScaleOfSeven(key: string, pattern: string, ghost sums: seq<int>) returns (r: Result<seq<string>>)
    requires |sums| == 7 && FilterIn(PrefixSums(Steps(pattern)), Octave) == sums
    ensures r.Err? <==> key !in Notes
    ensures r.Ok? ==> |r.value| == 7 && r.value[0] == key
    ensures r.Ok? ==> forall i :: 0 <= i < 7 ==> r.value[i] == NameAbove(PitchOf(key), sums[i])
  {
    r := ScaleOf(key, pattern);
  }

  /** `MusicScale(key).scale(ScalePatterns.major)` and the minor one: seven names, the
      key first, spelled from the pattern's running sums below the octave. */
  method SevenNoteScale(key: string, pattern: string) returns (r: Result<seq<string>>)
    requires pattern == MajorPattern || pattern == MinorPattern
    ensures r.Err? <==> key !in Notes
    ensures r.Ok? ==> |r.value| == 7 && r.value[0] == key
    ensures r.Ok? ==>
      var sums := if pattern == MajorPattern then [0, 2, 4, 5, 7, 9, 11] else [0, 2, 3, 5, 7, 8, 10];
      forall i :: 0 <= i < 7 ==> r.value[i] == NameAbove(PitchOf(key), sums[i])
  {
    ghost var sums := if pattern == MajorPattern then [0, 2, 4, 5, 7, 9, 11] else [0, 2, 3, 5, 7, 8, 10];
    PatternSums(pattern);
    r := ScaleOfSeven(key, pattern, sums);
  }
}
