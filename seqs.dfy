/** Facts about slicing concatenated sequences, used to locate fields in a layout. */
module Seqs {

  lemma SliceOfSlice<T>(s: seq<T>, i: nat, j: nat, k: nat, l: nat)
    requires i <= j <= |s| && k <= l <= j - i
    ensures s[i..j][k..l] == s[i + k..i + l]
  {
    assert |s[i..j][k..l]| == |s[i + k..i + l]|;
    forall n | 0 <= n < l - k ensures s[i..j][k..l][n] == s[i + k..i + l][n] {
    }
  }

  lemma Concat3Slices<T>(x: seq<T>, y: seq<T>, z: seq<T>)
    ensures var s := x + y + z;
      && s[..|x|] == x && s[|x|..|x| + |y|] == y && s[|x| + |y|..] == z
      && s[0..|x|] == x && s[|x| + |y|..|s|] == z
  {
    var s := x + y + z;
    assert s == x + (y + z);
    assert s[|x|..] == y + z;
    assert s[|x|..|x| + |y|] == (y + z)[..|y|];
  }

  lemma PrefixSlices<T>(s: seq<T>, t: seq<T>, i: nat, j: nat)
    requires i <= j <= |s|
    ensures (s + t)[i..j] == s[i..j]
  {
    assert (s + t)[..|s|] == s;
    SliceOfSlice(s + t, 0, |s|, i, j);
  }
}
