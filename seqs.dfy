/** Facts about sequences that hold for any element type. Proved here, away
    from the string functions, they stay cheap to use. */
module Seqs {

  lemma Around<T>(s: seq<T>, i: nat)
    requires i < |s|
    ensures s == s[..i] + [s[i]] + s[i + 1..]
  {
  }

  lemma Assoc<T>(x: seq<T>, y: seq<T>, z: seq<T>)
    ensures x + (y + z) == (x + y) + z
  {
  }

  lemma Regroup3<T>(p: seq<T>, c: T, q: seq<T>, b: seq<T>)
    ensures p + [c] + q + [c] + b == p + [c] + (q + [c] + b)
  {
  }

  lemma Regroup<T>(x: T, y: T, mid: seq<T>, post: seq<T>)
    ensures [x] + ([y] + (mid + post)) == [x, y] + mid + post
  {
  }

  lemma Halves<T>(xs: seq<T>, n: nat)
    requires n <= |xs|
    ensures xs == xs[..n] + xs[n..]
  {
  }

  lemma DropConcat<T>(a: seq<T>, b: seq<T>)
    ensures (a + b)[|a|..] == b
  {
  }

  lemma InitLast<T>(xs: seq<T>, m: nat)
    requires 1 <= m <= |xs|
    ensures xs[..m] == xs[..m - 1] + [xs[m - 1]]
  {
  }

  lemma ConsSuffix<T>(xs: seq<T>, m: nat)
    requires 1 <= m <= |xs|
    ensures [xs[m - 1]] + xs[m..] == xs[m - 1..]
  {
  }

  lemma PrefixSnoc<T>(xs: seq<T>, i: nat)
    requires i < |xs|
    ensures xs[..i + 1] == xs[..i] + [xs[i]]
  {
  }

  lemma Whole<T>(xs: seq<T>)
    ensures xs[..|xs|] == xs
  {
  }

  /** Inner elements between two in front and one behind. */
  lemma WrapAbove<T>(a: T, c: T, inner: seq<T>, e: T)
    ensures var r := [a, c] + inner + [e];
      |r| == |inner| + 3 && r[0] == a && r[1] == c && r[|r| - 1] == e && r[2..|r| - 1] == inner
      && multiset(r) == multiset(inner) + multiset{a, c, e}
  {
    var r := [a, c] + inner + [e];
    assert r[2..|r| - 1] == inner;
  }

  /** Inner elements between one in front and two behind. */
  lemma WrapBelow<T>(a: T, inner: seq<T>, c: T, e: T)
    ensures var r := [a] + inner + [c, e];
      |r| == |inner| + 3 && r[0] == a && r[|r| - 2] == c && r[|r| - 1] == e && r[1..|r| - 2] == inner
      && multiset(r) == multiset(inner) + multiset{a, c, e}
  {
    var r := [a] + inner + [c, e];
    assert r[1..|r| - 2] == inner;
  }

  lemma MultisetCons<T>(x: T, xs: seq<T>)
    ensures multiset([x] + xs) == multiset{x} + multiset(xs)
  {
  }

  lemma MultisetAppend<T>(xs: seq<T>, ys: seq<T>)
    ensures multiset(xs + ys) == multiset(xs) + multiset(ys)
  {
  }
}
