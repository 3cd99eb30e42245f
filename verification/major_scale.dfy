/** core/major_scale.py: the seven letter names as a cycle, read twice round from a
    root letter. */
module MajorScale {
  import opened Wrappers
  import opened Seqs

  /** `MajorScale.major_scale` */
  const Letters: seq<string> := ["A", "B", "C", "D", "E", "F", "G"]

  lemma LettersDistinct()
    ensures Distinct(Letters)
  {
  }

  /** Going one full cycle further round lands on the same position. */
  lemma CycleOnce(x: nat)
    ensures (x + 7) % 7 == x % 7
  {
    assert x + 7 == x + 7 * 1;
  }

  /** `count` elements read round a cycle of seven from position `k`, as the
      comprehension's `i % 7` does. */
  function ReadRound<T>(xs: seq<T>, k: nat, count: nat): (r: seq<T>)
    requires |xs| == 7 && k < |xs|
    ensures |r| == count && (count > 0 ==> r[0] == xs[k])
    ensures forall i :: 0 <= i < count ==> r[i] in xs
    ensures forall i :: 0 <= i < count - |xs| ==> r[i + |xs|] == r[i]
  {
    var r := seq(count, i requires 0 <= i < count => xs[(k + i) % 7]);
    assert forall i :: 0 <= i < count - |xs| ==> r[i + |xs|] == r[i] by {
      forall i | 0 <= i < count - |xs|
        ensures r[i + |xs|] == r[i]
      {
        CycleOnce(k + i);
      }
    }
    r
  }

  /** The first time round is the rotation of the cycle to position `k`. */
  lemma ReadRoundRotates<T>(xs: seq<T>, k: nat)
    requires |xs| == 7 && k < |xs|
    ensures ReadRound(xs, k, |xs|) == Rotate(xs, k)
  {
    var s := ReadRound(xs, k, |xs|);
    var rot := Rotate(xs, k);
    forall i | 0 <= i < |xs|
      ensures s[i] == rot[i]
    {
      WrapOnce(k + i, 7);
    }
  }

  /** `MajorScale(root).scale`, built by `_init_scale`: `list.index` raises ValueError
      for a root that is not one of the seven letters; otherwise the letters from the
      root on, going round the cycle, for two octaves. */
  function InitScale(root: string): (r: Result<seq<string>>)
    ensures r.Err? <==> root !in Letters
    ensures r.Err? ==> r.error == ValueError
    ensures r.Ok? ==> |r.value| == 14 && r.value[0] == root
    ensures r.Ok? ==> forall i :: 0 <= i < |r.value| ==> r.value[i] in Letters
    ensures r.Ok? ==> forall i :: 0 <= i < 7 ==> r.value[i + 7] == r.value[i]
  {
    match IndexOf(Letters, root)
    case None => Err(ValueError)
    case Some(k) => Ok(ReadRound(Letters, k, 14))
  }

  /** The first octave of the scale is the letter cycle rotated to start at the root:
      every letter exactly once, in alphabetical order round from the root. */
  lemma InitScaleRotates(root: string)
    requires root in Letters
    ensures var k := IndexOf(Letters, root).value;
      InitScale(root).value[..7] == Rotate(Letters, k)
    ensures Distinct(InitScale(root).value[..7])
    ensures multiset(InitScale(root).value[..7]) == multiset(Letters)
  {
    var xs := Letters;
    var k := IndexOf(xs, root).value;
    ReadRoundRotates(xs, k);
    assert ReadRound(xs, k, 14)[..7] == ReadRound(xs, k, 7);
    LettersDistinct();
    RotateDistinct(xs, k);
    RotateMultiset(xs, k);
  }

  /** The letter cycle read from C, its third letter. */
  lemma LettersFromC()
    ensures Rotate(Letters, 2) == ["C", "D", "E", "F", "G", "A", "B"]
  {
    var r := Rotate(Letters, 2);
    assert r[0] == "C" && r[1] == "D" && r[2] == "E" && r[3] == "F" && r[4] == "G";
    assert r[5] == "A" && r[6] == "B";
  }

  /** The worked example of the module: the scale of C reads C D E F G A B twice. */
  lemma ScaleOfC(root: string)
    requires root == "C"
    ensures InitScale(root).Ok?
    ensures InitScale(root).value[..7] == ["C", "D", "E", "F", "G", "A", "B"]
  {
    assert Letters[2] == root;
    IndexOfDistinct(Letters, 2);
    InitScaleRotates(root);
    LettersFromC();
  }
}
