/** Small shared vocabulary: an optional value and the "in the same order" relation. */
module Common {

  datatype Option<+T> = None | Some(value: T)

  /** `xs` is `ys` with some elements dropped, the rest kept in their order. */
  predicate IsSubsequence<T(==)>(xs: seq<T>, ys: seq<T>)
    decreases |ys|
  {
    if xs == [] then true
    else if ys == [] then false
    else (xs[0] == ys[0] && IsSubsequence(xs[1..], ys[1..])) || IsSubsequence(xs, ys[1..])
  }

  /** Every element of a subsequence is an element of the whole. */
  lemma {:induction false} SubsequenceMembers<T>(xs: seq<T>, ys: seq<T>)
    requires IsSubsequence(xs, ys)
    ensures forall j :: 0 <= j < |xs| ==> xs[j] in ys
    decreases |ys|
  {
    if xs != [] {
      if xs[0] == ys[0] && IsSubsequence(xs[1..], ys[1..]) {
        SubsequenceMembers(xs[1..], ys[1..]);
        assert forall j :: 1 <= j < |xs| ==> xs[j] == xs[1..][j - 1];
      } else {
        SubsequenceMembers(xs, ys[1..]);
      }
    }
  }
}
