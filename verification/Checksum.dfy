/** Checksums as left folds of an arbitrary mixing function over the values appended.
    Nothing proved here depends on which mixing function is used. */
module Checksum {

  type Mix = (int, int) -> int

  const FNV_OFFSET_BASIS := 14695981039346656037

  function Fold(mix: Mix, seed: int, values: seq<int>): int
    decreases |values|
  {
    if values == [] then seed else Fold(mix, mix(seed, values[0]), values[1..])
  }

  lemma {:induction false} FoldConcat(mix: Mix, seed: int, a: seq<int>, b: seq<int>)
    ensures Fold(mix, seed, a + b) == Fold(mix, Fold(mix, seed, a), b)
    decreases |a|
  {
    if a == [] {
      assert a + b == b;
    } else {
      assert (a + b)[0] == a[0] && (a + b)[1..] == a[1..] + b;
      FoldConcat(mix, mix(seed, a[0]), a[1..], b);
    }
  }

  lemma FoldTwo(mix: Mix, seed: int, a: int, b: int)
    ensures Fold(mix, seed, [a, b]) == mix(mix(seed, a), b)
  {
    FoldConcat(mix, seed, [a], [b]);
    assert [a] + [b] == [a, b];
  }

  lemma FoldThree(mix: Mix, seed: int, a: int, b: int, c: int)
    ensures Fold(mix, seed, [a, b, c]) == mix(mix(mix(seed, a), b), c)
  {
    FoldTwo(mix, seed, a, b);
    FoldConcat(mix, seed, [a, b], [c]);
    assert [a, b] + [c] == [a, b, c];
  }

  lemma FoldSix(mix: Mix, seed: int, v: seq<int>)
    requires |v| == 6
    ensures Fold(mix, seed, v) == mix(mix(mix(mix(mix(mix(seed, v[0]), v[1]), v[2]), v[3]), v[4]), v[5])
  {
    FoldThree(mix, seed, v[0], v[1], v[2]);
    FoldThree(mix, Fold(mix, seed, v[..3]), v[3], v[4], v[5]);
    assert v[..3] == [v[0], v[1], v[2]] && v[3..] == [v[3], v[4], v[5]] && v == v[..3] + v[3..];
    FoldConcat(mix, seed, v[..3], v[3..]);
  }
}
