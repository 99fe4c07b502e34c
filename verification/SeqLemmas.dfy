/** Facts about sequences and multisets used by several components. */
module SeqLemmas {

  lemma TakeOut<D>(s: seq<D>, k: nat)
    requires k < |s|
    ensures multiset(s[..k] + s[k + 1..]) == multiset(s) - multiset{s[k]}
  {
    assert s == s[..k] + [s[k]] + s[k + 1..];
  }

  /** The last element of a sequence, found in any permutation of it. */
  lemma MatchLast<D>(a: seq<D>, b: seq<D>) returns (k: nat)
    requires a != [] && multiset(a) == multiset(b)
    ensures k < |b| && b[k] == a[|a| - 1]
    ensures multiset(a[..|a| - 1]) == multiset(b[..k] + b[k + 1..])
  {
    var n := |a| - 1;
    assert a[n] in multiset(b);
    k :| 0 <= k < |b| && b[k] == a[n];
    TakeOut(b, k);
    TakeOut(a, n);
    assert a[..n] + a[n + 1..] == a[..n];
  }

  lemma EmptyPermutation<D>(a: seq<D>, b: seq<D>)
    requires multiset(a) == multiset(b)
    ensures |a| == |b|
  {
    assert |multiset(a)| == |a| && |multiset(b)| == |b|;
  }
}
