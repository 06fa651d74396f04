/** Subsequences: what is left of a sequence after deleting some of its elements, in order. */
module Subsequences {

  /** `xs` is a subsequence of `ys`: it is obtained from `ys` by deleting elements, keeping the order. */
  ghost predicate IsSubsequence<T>(xs: seq<T>, ys: seq<T>)
    decreases |ys|
  {
    if xs == [] then true
    else if ys == [] then false
    else if xs[0] == ys[0] then IsSubsequence(xs[1..], ys[1..])
    else IsSubsequence(xs, ys[1..])
  }

  /** Dropping the head of `ys` keeps a subsequence of the tail a subsequence. */
  lemma {:induction false} SubsequenceSkip<T>(xs: seq<T>, ys: seq<T>)
    requires ys != []
    requires IsSubsequence(xs, ys[1..])
    ensures IsSubsequence(xs, ys)
    decreases |ys|, |xs|
  {
    if xs != [] && xs[0] == ys[0] {
      var t := ys[1..];
      if t != [] {
        if xs[0] == t[0] {
          assert IsSubsequence(xs[1..], t[1..]);
          SubsequenceSkip(xs[1..], t);
        } else {
          assert IsSubsequence(xs, t[1..]);
          SubsequenceSkip(xs, t);
          SubsequenceTail(xs, t);
        }
      }
    }
  }

  /** Dropping the head of a non-empty subsequence keeps it a subsequence. */
  lemma {:induction false} SubsequenceTail<T>(xs: seq<T>, ys: seq<T>)
    requires xs != []
    requires IsSubsequence(xs, ys)
    ensures IsSubsequence(xs[1..], ys)
    decreases |ys|, |xs|
  {
    if ys != [] {
      if xs[0] == ys[0] {
        SubsequenceSkip(xs[1..], ys);
      } else {
        SubsequenceTail(xs, ys[1..]);
        SubsequenceSkip(xs[1..], ys);
      }
    }
  }

  /** Appending the same element to both sides keeps a subsequence. */
  lemma {:induction false} SubsequenceExtend<T>(xs: seq<T>, ys: seq<T>, a: T)
    requires IsSubsequence(xs, ys)
    ensures IsSubsequence(xs + [a], ys + [a])
    decreases |ys|
  {
    if ys == [] {
      assert xs + [a] == [a] && ys + [a] == [a];
      assert IsSubsequence([a][1..], [a][1..]);
    } else if xs == [] {
      if a != ys[0] {
        SubsequenceExtend(xs, ys[1..], a);
        assert (ys + [a])[1..] == ys[1..] + [a];
      }
    } else if xs[0] == ys[0] {
      SubsequenceExtend(xs[1..], ys[1..], a);
      assert (xs + [a])[1..] == xs[1..] + [a];
      assert (ys + [a])[1..] == ys[1..] + [a];
    } else {
      SubsequenceExtend(xs, ys[1..], a);
      assert (ys + [a])[1..] == ys[1..] + [a];
    }
  }

  /** Appending an element to the longer side only keeps a subsequence. */
  lemma {:induction false} SubsequenceGrow<T>(xs: seq<T>, ys: seq<T>, a: T)
    requires IsSubsequence(xs, ys)
    ensures IsSubsequence(xs, ys + [a])
    decreases |ys|
  {
    if xs != [] {
      assert (ys + [a])[1..] == ys[1..] + [a];
      if xs[0] == ys[0] {
        SubsequenceGrow(xs[1..], ys[1..], a);
      } else {
        SubsequenceGrow(xs, ys[1..], a);
      }
    }
  }
}
