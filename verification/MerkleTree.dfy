/** The RFC 6962 tree: hashes, the power-of-two split, the tree hash, and the
    top-down proof builders.

    SHA-256 is modelled as a free constructor: two digests are equal only when
    they were built from equal inputs, leaves and interior nodes never collide
    (the 0x00 / 0x01 prefixes), and Unknown stands for a 32-byte string nobody
    knows a preimage of, which is what an untrusted proof may contain. */
module MerkleTree {

  datatype Digest<+T> =
    | EmptyRoot
    | LeafHash(data: T)
    | NodeHash(left: Digest<T>, right: Digest<T>)
    | Unknown(id: nat)

  // ---------- the split point ----------

  /** True of 1, 2, 4, 8, ... */
  predicate IsPowerOfTwo(n: nat) {
    n == 1 || (n > 1 && n % 2 == 0 && IsPowerOfTwo(n / 2))
  }

  /** The largest power of two strictly below n. */
  function SplitPoint(n: nat): (k: nat)
    requires n >= 2
    ensures 1 <= k < n <= 2 * k
  {
    if n == 2 then 1 else 2 * SplitPoint((n + 1) / 2)
  }

  /** It is a power of two, and the only one in [n/2, n). */
  lemma {:induction false} SplitPointUnique(n: nat, k: nat)
    requires n >= 2 && k < n <= 2 * k
    ensures k == SplitPoint(n) <==> IsPowerOfTwo(k)
  {
    hide SplitPoint, IsPowerOfTwo;
    SplitPointStep(n);
    PowerOfTwoStep(k);
    if n > 2 && k % 2 == 0 {
      var h := k / 2;
      assert k == 2 * h && h < (n + 1) / 2 <= 2 * h;
      SplitPointUnique((n + 1) / 2, h);
    }
  }

  lemma SplitPointStep(n: nat)
    requires n >= 2
    ensures SplitPoint(n) == if n == 2 then 1 else 2 * SplitPoint((n + 1) / 2)
  {
  }

  lemma PowerOfTwoStep(k: nat)
    ensures IsPowerOfTwo(k) <==> k == 1 || (k > 1 && k % 2 == 0 && IsPowerOfTwo(k / 2))
  {
  }

  method LargestPowerOfTwoBelow(n: nat) returns (k: nat)
    requires n >= 2
    ensures k == SplitPoint(n)
  {
    k := 1;
    while k * 2 < n
      invariant IsPowerOfTwo(k) && k < n
      decreases n - k
    {
      k := k * 2;
    }
    SplitPointUnique(n, k);
  }

  // ---------- the tree hash ----------

  /** Tree hash over a non-empty layer of subtree digests. */
  function TreeHash<T>(ds: seq<Digest<T>>): Digest<T>
    requires |ds| >= 1
    decreases |ds|
  {
    if |ds| == 1 then ds[0]
    else
      var k := SplitPoint(|ds|);
      NodeHash(TreeHash(ds[..k]), TreeHash(ds[k..]))
  }

  /** The bottom layer: every leaf hashed with the leaf prefix. */
  function LeafHashes<T>(leaves: seq<T>): (ds: seq<Digest<T>>)
    ensures |ds| == |leaves|
    ensures forall i :: 0 <= i < |leaves| ==> ds[i] == LeafHash(leaves[i])
  {
    seq(|leaves|, i requires 0 <= i < |leaves| => LeafHash(leaves[i]))
  }

  /** Merkle tree hash of a list of leaves. */
  function Mth<T>(leaves: seq<T>): Digest<T> {
    if leaves == [] then EmptyRoot else TreeHash(LeafHashes(leaves))
  }

  lemma TreeHashUnfold<T>(ds: seq<Digest<T>>, k: nat)
    requires |ds| >= 2 && k == SplitPoint(|ds|)
    ensures TreeHash(ds) == NodeHash(TreeHash(ds[..k]), TreeHash(ds[k..]))
  {
  }

  lemma LeafHashesSplit<T>(leaves: seq<T>, k: nat)
    requires k <= |leaves|
    ensures LeafHashes(leaves)[..k] == LeafHashes(leaves[..k])
    ensures LeafHashes(leaves)[k..] == LeafHashes(leaves[k..])
  {
  }

  lemma MthShort<T>(leaves: seq<T>)
    requires |leaves| <= 1
    ensures Mth(leaves) == if leaves == [] then EmptyRoot else LeafHash(leaves[0])
  {
  }

  lemma MthIsTreeHash<T>(leaves: seq<T>)
    ensures leaves != [] ==> Mth(leaves) == TreeHash(LeafHashes(leaves))
  {
  }

  /** The recursive definition of section 2.1 of RFC 6962, which the source
      evaluates over index ranges of the log. */
  lemma MthRecursion<T>(leaves: seq<T>)
    ensures |leaves| == 0 ==> Mth(leaves) == EmptyRoot
    ensures |leaves| == 1 ==> Mth(leaves) == LeafHash(leaves[0])
    ensures |leaves| >= 2 ==>
      var k := SplitPoint(|leaves|);
      Mth(leaves) == NodeHash(Mth(leaves[..k]), Mth(leaves[k..]))
  {
    hide Mth, TreeHash, LeafHashes, SplitPoint;
    if |leaves| <= 1 {
      MthShort(leaves);
    } else {
      var k := SplitPoint(|leaves|);
      LeafHashesSplit(leaves, k);
      TreeHashUnfold(LeafHashes(leaves), k);
      MthIsTreeHash(leaves);
      MthIsTreeHash(leaves[..k]);
      MthIsTreeHash(leaves[k..]);
    }
  }

  // ---------- one level up ----------

  /** Pair neighbours once; an odd last element is promoted unchanged. */
  function Pair<T>(ds: seq<Digest<T>>): (ps: seq<Digest<T>>)
    ensures |ps| == (|ds| + 1) / 2
  {
    seq((|ds| + 1) / 2, j requires 0 <= j < (|ds| + 1) / 2 =>
      if 2 * j + 1 < |ds| then NodeHash(ds[2 * j], ds[2 * j + 1]) else ds[2 * j])
  }

  lemma PairSplit<T>(ds: seq<Digest<T>>, k: nat)
    requires k <= |ds| && k % 2 == 0
    ensures Pair(ds)[..k / 2] == Pair(ds[..k])
    ensures Pair(ds)[k / 2..] == Pair(ds[k..])
  {
  }

  /** The bridge between the top-down prover and the bottom-up verifiers. */
  lemma {:induction false} PairKeepsTreeHash<T>(ds: seq<Digest<T>>)
    requires |ds| >= 1
    ensures TreeHash(Pair(ds)) == TreeHash(ds)
    decreases |ds|
  {
    if |ds| == 1 {
      assert Pair(ds) == ds;
    } else if |ds| > 2 {
      var k := SplitPoint(|ds|);
      PairSplit(ds, k);
      PairKeepsTreeHash(ds[..k]);
      PairKeepsTreeHash(ds[k..]);
    }
  }

  // ---------- the root determines the leaves ----------

  /** The leaves hashed below a digest, left to right. */
  function LeavesBelow<T>(d: Digest<T>): seq<T> {
    match d
    case LeafHash(x) => [x]
    case NodeHash(l, r) => LeavesBelow(l) + LeavesBelow(r)
    case _ => []
  }

  lemma {:induction false} MthDeterminesLeaves<T>(leaves: seq<T>)
    ensures LeavesBelow(Mth(leaves)) == leaves
    decreases |leaves|
  {
    MthRecursion(leaves);
    if |leaves| >= 2 {
      var k := SplitPoint(|leaves|);
      MthDeterminesLeaves(leaves[..k]);
      MthDeterminesLeaves(leaves[k..]);
    }
  }

  /** A root commits to the whole log: contents, order and size. */
  lemma RootCommitsToLeaves<T>(a: seq<T>, b: seq<T>)
    requires Mth(a) == Mth(b)
    ensures a == b
  {
    MthDeterminesLeaves(a);
    MthDeterminesLeaves(b);
  }

  // ---------- proofs, built top-down ----------

  /** Audit path of element m of a layer, nearest sibling first. */
  function AuditPath<T>(m: nat, ds: seq<Digest<T>>): seq<Digest<T>>
    requires m < |ds|
    decreases |ds|
  {
    if |ds| <= 1 then []
    else
      var k := SplitPoint(|ds|);
      if m < k then AuditPath(m, ds[..k]) + [TreeHash(ds[k..])]
      else AuditPath(m - k, ds[k..]) + [TreeHash(ds[..k])]
  }

  /** RFC 6962 SUBPROOF(m, ds, complete). */
  function SubProof<T>(m: nat, ds: seq<Digest<T>>, complete: bool): seq<Digest<T>>
    requires 1 <= m <= |ds|
    decreases |ds|
  {
    if m == |ds| then
      if complete then [] else [TreeHash(ds)]
    else
      var k := SplitPoint(|ds|);
      if m <= k then SubProof(m, ds[..k], complete) + [TreeHash(ds[k..])]
      else SubProof(m - k, ds[k..], false) + [TreeHash(ds[..k])]
  }

  // ---------- the same proofs, one level at a time ----------

  /** Splitting a layer and splitting the layer above it commute. */
  lemma PairHalves<T>(ds: seq<Digest<T>>, k: nat)
    requires |ds| > 2 && k == SplitPoint(|ds|)
    ensures k % 2 == 0 && k / 2 == SplitPoint(|Pair(ds)|)
    ensures Pair(ds)[..k / 2] == Pair(ds[..k]) && TreeHash(Pair(ds[..k])) == TreeHash(ds[..k])
    ensures Pair(ds)[k / 2..] == Pair(ds[k..]) && TreeHash(Pair(ds[k..])) == TreeHash(ds[k..])
  {
    PairSplit(ds, k);
    PairKeepsTreeHash(ds[..k]);
    PairKeepsTreeHash(ds[k..]);
  }

  /** What an audit path through element m takes from the layer itself: the
      sibling, unless m is an odd last element. */
  function Sibling<T>(m: nat, ds: seq<Digest<T>>): (s: seq<Digest<T>>)
    requires m < |ds|
  {
    if m % 2 == 1 then [ds[m - 1]] else if m + 1 < |ds| then [ds[m + 1]] else []
  }

  /** The element above m joins m and its sibling, or is m itself. */
  lemma PairAt<T>(m: nat, ds: seq<Digest<T>>)
    requires m < |ds|
    ensures m / 2 < |Pair(ds)| && (|ds| - 1) / 2 == |Pair(ds)| - 1
    ensures Pair(ds)[m / 2] ==
      if m % 2 == 1 then NodeHash(ds[m - 1], ds[m])
      else if m + 1 < |ds| then NodeHash(ds[m], ds[m + 1])
      else ds[m]
  {
  }

  /** Siblings never straddle an even split. */
  lemma SiblingInHalf<T>(m: nat, ds: seq<Digest<T>>, k: nat)
    requires m < |ds| && k <= |ds| && k % 2 == 0
    ensures m < k ==> Sibling(m, ds[..k]) == Sibling(m, ds)
    ensures m >= k ==> Sibling(m - k, ds[k..]) == Sibling(m, ds)
  {
    if m < k {
      var left := ds[..k];
      if m % 2 == 1 {
        assert left[m - 1] == ds[m - 1];
      } else {
        assert left[m + 1] == ds[m + 1];
      }
    } else {
      assert (m - k) % 2 == m % 2;
    }
  }

  /** The two halves of an audit path, read off its definition. */
  lemma AuditPathUnfold<T>(m: nat, ds: seq<Digest<T>>, k: nat)
    requires m < |ds| && |ds| >= 2 && k == SplitPoint(|ds|)
    ensures m < k ==> AuditPath(m, ds) == AuditPath(m, ds[..k]) + [TreeHash(ds[k..])]
    ensures m >= k ==> AuditPath(m, ds) == AuditPath(m - k, ds[k..]) + [TreeHash(ds[..k])]
  {
  }

  lemma AuditPathOfOne<T>(ds: seq<Digest<T>>, m: nat)
    requires m < |ds| == 1
    ensures AuditPath(m, ds) == []
  {
  }

  lemma AuditPathOfTwo<T>(m: nat, ds: seq<Digest<T>>)
    requires m < |ds| == 2
    ensures AuditPath(m, ds) == Sibling(m, ds) + AuditPath(m / 2, Pair(ds))
  {
    assert AuditPath(m / 2, Pair(ds)) == [];
  }

  lemma AppendOne<D>(a: seq<D>, b: seq<D>, x: D)
    ensures (a + b) + [x] == a + (b + [x])
  {
  }

  /** An audit path is the sibling followed by the audit path one level up. */
  lemma {:induction false} AuditPathByLevel<T>(m: nat, ds: seq<Digest<T>>)
    requires m < |ds| && |ds| >= 2
    ensures AuditPath(m, ds) == Sibling(m, ds) + AuditPath(m / 2, Pair(ds))
    decreases |ds|
  {
    hide AuditPath, Pair, SplitPoint, TreeHash, Sibling;
    if |ds| == 2 {
      AuditPathOfTwo(m, ds);
    } else {
      var k := SplitPoint(|ds|);
      PairHalves(ds, k);
      SiblingInHalf(m, ds, k);
      AuditPathUnfold(m, ds, k);
      AuditPathUnfold(m / 2, Pair(ds), k / 2);
      var left, right := ds[..k], ds[k..];
      if m < k {
        AuditPathByLevel(m, left);
        AppendOne(Sibling(m, ds), AuditPath(m / 2, Pair(left)), TreeHash(right));
      } else {
        assert m / 2 - k / 2 == (m - k) / 2;
        if |right| == 1 {
          PairOfOne(right, m - k);
        } else {
          AuditPathByLevel(m - k, right);
        }
        AppendOne(Sibling(m, ds), AuditPath((m - k) / 2, Pair(right)), TreeHash(left));
      }
    }
  }

  lemma PairOfOne<T>(ds: seq<Digest<T>>, m: nat)
    requires m < |ds| == 1
    ensures AuditPath(m, ds) == Sibling(m, ds) + AuditPath(m / 2, Pair(ds))
  {
    assert Pair(ds) == ds;
  }

  lemma SubProofUnfold<T>(m: nat, ds: seq<Digest<T>>, complete: bool, k: nat)
    requires 1 <= m < |ds| && k == SplitPoint(|ds|)
    ensures m <= k ==> SubProof(m, ds, complete) == SubProof(m, ds[..k], complete) + [TreeHash(ds[k..])]
    ensures m > k ==> SubProof(m, ds, complete) == SubProof(m - k, ds[k..], false) + [TreeHash(ds[..k])]
  {
  }

  lemma SubProofOfWhole<T>(ds: seq<Digest<T>>, complete: bool)
    requires |ds| >= 1
    ensures SubProof(|ds|, ds, complete) == if complete then [] else [TreeHash(ds)]
  {
  }

  lemma {:induction false} SubProofEvenSize<T>(h: nat, ds: seq<Digest<T>>, complete: bool)
    requires 1 <= h && 2 * h <= |ds|
    ensures SubProof(2 * h, ds, complete) == SubProof(h, Pair(ds), complete)
    decreases |ds|
  {
    hide SubProof, Pair, SplitPoint, TreeHash;
    if 2 * h == |ds| {
      PairKeepsTreeHash(ds);
      SubProofOfWhole(ds, complete);
      SubProofOfWhole(Pair(ds), complete);
    } else {
      var k := SplitPoint(|ds|);
      PairHalves(ds, k);
      var q := k / 2;
      SubProofUnfold(2 * h, ds, complete, k);
      SubProofUnfold(h, Pair(ds), complete, q);
      if h <= q {
        SubProofEvenSize(h, ds[..k], complete);
      } else {
        SubProofEvenSize(h - q, ds[k..], false);
        assert 2 * h - k == 2 * (h - q);
      }
    }
  }

  lemma SplitPointEven(n: nat)
    requires n > 2
    ensures SplitPoint(n) % 2 == 0
  {
  }

  /** For an odd first size the proof is the last old element (unless it is the
      whole old tree, which the verifier already holds) and its audit path. */
  lemma {:induction false} SubProofOddSize<T>(m: nat, ds: seq<Digest<T>>, complete: bool)
    requires 1 <= m <= |ds| && m % 2 == 1 && (m < |ds| || |ds| == 1)
    ensures SubProof(m, ds, complete) ==
      (if complete && m == 1 then [] else [ds[m - 1]]) + AuditPath(m - 1, ds)
    decreases |ds|
  {
    hide SubProof, AuditPath, SplitPoint, TreeHash;
    if |ds| == 1 {
      SubProofOfOne(ds, complete);
    } else {
      var k := SplitPoint(|ds|);
      var seed := if complete && m == 1 then [] else [ds[m - 1]];
      AuditPathUnfold(m - 1, ds, k);
      SubProofUnfold(m, ds, complete, k);
      if m <= k {
        if k > 1 {
          SplitPointEven(|ds|);
        }
        SubProofOddSize(m, ds[..k], complete);
        AppendOne(seed, AuditPath(m - 1, ds[..k]), TreeHash(ds[k..]));
      } else {
        SplitPointEven(|ds|);
        SubProofOddSize(m - k, ds[k..], false);
        AppendOne(seed, AuditPath(m - k - 1, ds[k..]), TreeHash(ds[..k]));
      }
    }
  }

  lemma SubProofOfOne<T>(ds: seq<Digest<T>>, complete: bool)
    requires |ds| == 1
    ensures SubProof(1, ds, complete) == (if complete then [] else [ds[0]]) + AuditPath(0, ds)
  {
  }
}
