/** Order-preserving subsequences, the shape every `filter` of the
    collection produces. */
module Seqs {

  /** `a` is obtained from `b` by deleting elements, keeping the rest in order. */
  predicate IsSubseq<T(==)>(a: seq<T>, b: seq<T>)
    decreases |b|
  {
    a == [] || (b != [] && ((a[0] == b[0] && IsSubseq(a[1..], b[1..])) || IsSubseq(a, b[1..])))
  }

  /** Dropping the head of the larger sequence keeps the relation from the tail. */
  lemma SubseqCons<T>(a: seq<T>, x: T, b: seq<T>)
    requires IsSubseq(a, b)
    ensures IsSubseq(a, [x] + b)
  {
    assert ([x] + b)[1..] == b;
  }

  /** Keeping the head: a subsequence of the tail extends by the same head. */
  lemma SubseqConsBoth<T>(a: seq<T>, x: T, b: seq<T>)
    requires IsSubseq(a, b)
    ensures IsSubseq([x] + a, [x] + b)
  {
    assert ([x] + a)[1..] == a && ([x] + b)[1..] == b;
  }

  /** A subsequence is never longer than the sequence it comes from. */
  lemma {:induction false} SubseqNoLonger<T>(a: seq<T>, b: seq<T>)
    requires IsSubseq(a, b)
    ensures |a| <= |b|
    decreases |b|
  {
    if a != [] {
      if a[0] == b[0] && IsSubseq(a[1..], b[1..]) {
        SubseqNoLonger(a[1..], b[1..]);
      } else {
        SubseqNoLonger(a, b[1..]);
      }
    }
  }

  /** The sequence read back to front. */
  function Rev<T>(s: seq<T>): (r: seq<T>)
    ensures |r| == |s|
    ensures forall i | 0 <= i < |s| :: r[i] == s[|s| - 1 - i]
  {
    if s == [] then [] else Rev(s[1..]) + [s[0]]
  }

  /** Reversing keeps every element, as often as it occurs. */
  lemma {:induction false} RevCounts<T>(s: seq<T>)
    ensures multiset(Rev(s)) == multiset(s)
  {
    if s != [] {
      RevCounts(s[1..]);
      assert s == [s[0]] + s[1..];
    }
  }

  /** Two sequences with the same elements and the same head have tails
      with the same elements. */
  lemma TailCounts<T>(a: seq<T>, b: seq<T>)
    requires a != [] && b != [] && a[0] == b[0] && multiset(a) == multiset(b)
    ensures multiset(a[1..]) == multiset(b[1..])
  {
    assert a == [a[0]] + a[1..] && b == [b[0]] + b[1..];
    assert multiset(a) == multiset{a[0]} + multiset(a[1..]);
    assert multiset(b) == multiset{b[0]} + multiset(b[1..]);
    forall z ensures multiset(a[1..])[z] == multiset(b[1..])[z] {
      assert multiset(a)[z] == multiset{a[0]}[z] + multiset(a[1..])[z];
      assert multiset(b)[z] == multiset{b[0]}[z] + multiset(b[1..])[z];
    }
  }
}
