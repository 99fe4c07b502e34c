/** The bottom-up proof verifiers and their exact meaning.

    A proof element or root arrives from outside as an optional digest: None is
    a string that does not normalize to 64 hexadecimal characters. */
module MerkleVerifiers {
  import opened Wrappers
  import opened MerkleTree

  type Untrusted<T> = Option<Digest<T>>

  predicate WellFormed<T>(path: seq<Untrusted<T>>) {
    forall i :: 0 <= i < |path| ==> path[i].Some?
  }

  function Digests<T>(path: seq<Untrusted<T>>): (ds: seq<Digest<T>>)
    requires WellFormed(path)
    ensures |ds| == |path| && forall i :: 0 <= i < |path| ==> path[i] == Some(ds[i])
  {
    seq(|path|, i requires 0 <= i < |path| => path[i].value)
  }

  /** A proof as an honest prover sends it. */
  function Sent<T>(ds: seq<Digest<T>>): (path: seq<Untrusted<T>>)
    ensures |path| == |ds| && forall i :: 0 <= i < |ds| ==> path[i] == Some(ds[i])
  {
    seq(|ds|, i requires 0 <= i < |ds| => Some(ds[i]))
  }

  lemma SentDigests<T>(path: seq<Untrusted<T>>, ds: seq<Digest<T>>)
    ensures path == Sent(ds) <==> WellFormed(path) && Digests(path) == ds
  {
  }

  // ---------- inclusion ----------

  /** The root rebuilt from digest r at position fn of a layer whose last index
      is sn; None when the path has the wrong length. */
  function Climb<T>(fn: nat, sn: nat, r: Digest<T>, path: seq<Digest<T>>): Option<Digest<T>>
    requires fn <= sn
    decreases sn
  {
    if sn == 0 then
      if path == [] then Some(r) else None
    else if fn % 2 == 0 && fn == sn then
      Climb(fn / 2, sn / 2, r, path)
    else if path == [] then
      None
    else
      var up := if fn % 2 == 1 then NodeHash(path[0], r) else NodeHash(r, path[0]);
      Climb(fn / 2, sn / 2, up, path[1..])
  }

  /** A path is a given first element followed by a given rest. */
  lemma ConsPath<D>(path: seq<D>, c: D, rest: seq<D>)
    ensures path == [c] + rest <==> path != [] && path[0] == c && path[1..] == rest
  {
    if path != [] {
      assert path == [path[0]] + path[1..];
    }
  }

  /** The single-element layer, where the climb ends. */
  lemma ClimbOneLayer<T>(ds: seq<Digest<T>>, r: Digest<T>, path: seq<Digest<T>>)
    requires |ds| == 1
    ensures Climb(0, 0, r, path) == Some(TreeHash(ds)) <==> r == ds[0] && path == AuditPath(0, ds)
  {
  }

  /** On the true root the climb accepts one digest and one path only. */
  lemma {:induction false} ClimbExact<T>(ds: seq<Digest<T>>, fn: nat, r: Digest<T>, path: seq<Digest<T>>)
    requires fn < |ds|
    ensures Climb(fn, |ds| - 1, r, path) == Some(TreeHash(ds))
       <==> r == ds[fn] && path == AuditPath(fn, ds)
    decreases |ds|
  {
    hide AuditPath, SplitPoint, TreeHash, Pair;
    if |ds| == 1 {
      ClimbOneLayer(ds, r, path);
    } else {
      AuditPathByLevel(fn, ds);
      PairKeepsTreeHash(ds);
      PairAt(fn, ds);
      var up, s := Pair(ds), Sibling(fn, ds);
      if s == [] {
        NothingInFront(s, AuditPath(fn / 2, up));
        ClimbExact(up, fn / 2, r, path);
      } else {
        ConsPath(path, s[0], AuditPath(fn / 2, up));
        if path == [] {
          StuckClimb(fn, |ds| - 1, r);
        } else if fn % 2 == 1 {
          ClimbExact(up, fn / 2, NodeHash(path[0], r), path[1..]);
        } else {
          ClimbExact(up, fn / 2, NodeHash(r, path[0]), path[1..]);
        }
      }
    }
  }

  /** What the verifier decides for a log with the given leaves: it accepts
      exactly the stored leaf with the path the log itself would issue. */
  ghost predicate InclusionHolds<T>(leaves: seq<T>, leaf: T, index: int, path: seq<Untrusted<T>>) {
    0 <= index < |leaves| && leaf == leaves[index]
    && path == Sent(AuditPath(index, LeafHashes(leaves)))
  }

  /** The verifier's branches, as one condition. */
  ghost predicate InclusionAccepts<T>(leaf: T, leafIndex: int, treeSize: int,
                                      auditPath: seq<Untrusted<T>>, rootHash: Untrusted<T>) {
    && 0 <= leafIndex < treeSize && rootHash.Some? && WellFormed(auditPath)
    && Climb(leafIndex, treeSize - 1, LeafHash(leaf), Digests(auditPath)) == rootHash
  }

  /** Soundness, completeness and uniqueness of inclusion proofs at once. */
  lemma InclusionExact<T>(leaves: seq<T>, leaf: T, index: int, path: seq<Untrusted<T>>)
    ensures InclusionAccepts(leaf, index, |leaves|, path, Some(Mth(leaves)))
       <==> InclusionHolds(leaves, leaf, index, path)
  {
    if 0 <= index < |leaves| {
      SentDigests(path, AuditPath(index, LeafHashes(leaves)));
      if WellFormed(path) {
        ClimbExact(LeafHashes(leaves), index, LeafHash(leaf), Digests(path));
      }
    }
  }

  lemma InclusionVerdict<T(!new)>(leaf: T, leafIndex: int, treeSize: int,
                                  auditPath: seq<Untrusted<T>>, rootHash: Untrusted<T>)
    ensures forall leaves: seq<T> {:trigger Mth(leaves)} ::
      treeSize == |leaves| && rootHash == Some(Mth(leaves)) ==>
        (InclusionAccepts(leaf, leafIndex, treeSize, auditPath, rootHash)
         <==> InclusionHolds(leaves, leaf, leafIndex, auditPath))
  {
    forall leaves: seq<T> | treeSize == |leaves| && rootHash == Some(Mth(leaves))
      ensures InclusionAccepts(leaf, leafIndex, treeSize, auditPath, rootHash)
         <==> InclusionHolds(leaves, leaf, leafIndex, auditPath)
    {
      InclusionExact(leaves, leaf, leafIndex, auditPath);
    }
  }

  method VerifyInclusion<T(==,!new)>(leaf: T, leafIndex: int, treeSize: int,
                                  auditPath: seq<Untrusted<T>>, rootHash: Untrusted<T>)
    returns (ok: bool)
    ensures ok <==> InclusionAccepts(leaf, leafIndex, treeSize, auditPath, rootHash)
    ensures forall leaves: seq<T> {:trigger Mth(leaves)} ::
      treeSize == |leaves| && rootHash == Some(Mth(leaves)) ==>
        (ok <==> InclusionHolds(leaves, leaf, leafIndex, auditPath))
  {
    hide Mth;
    InclusionVerdict(leaf, leafIndex, treeSize, auditPath, rootHash);
    if leafIndex < 0 || leafIndex >= treeSize {
      return false;
    }
    if rootHash.None? || !WellFormed(auditPath) {
      return false;
    }
    var path := Digests(auditPath);
    var fn: nat, sn: nat := leafIndex, treeSize - 1;
    var r: Digest<T> := LeafHash(leaf);
    var i := 0;
    while i < |path|
      invariant 0 <= i <= |path| && fn <= sn
      invariant Climb(fn, sn, r, path[i..]) == Climb(leafIndex, treeSize - 1, LeafHash(leaf), path)
    {
      var p := path[i];
      if sn == 0 {
        return false;
      }
      assert path[i..][0] == p && path[i..][1..] == path[i + 1..];
      if fn % 2 == 1 || fn == sn {
        ghost var below := r;
        r := NodeHash(p, r);
        if fn % 2 == 0 {
          while fn % 2 == 0 && fn != 0
            invariant fn == sn && sn > 0
            invariant Climb(fn, sn, below, path[i..]) == Climb(leafIndex, treeSize - 1, LeafHash(leaf), path)
            decreases fn
          {
            fn, sn := fn / 2, sn / 2;
          }
        }
      } else {
        r := NodeHash(r, p);
      }
      fn, sn := fn / 2, sn / 2;
      i := i + 1;
    }
    assert path[i..] == [];
    StuckClimb(fn, sn, r);
    return sn == 0 && Some(r) == rootHash;
  }

  /** Running out of path below the root is a rejection. */
  lemma {:induction false} StuckClimb<T>(fn: nat, sn: nat, r: Digest<T>)
    requires fn <= sn
    ensures Climb(fn, sn, r, []) == if sn == 0 then Some(r) else None
    decreases sn
  {
    if sn != 0 && fn % 2 == 0 && fn == sn {
      StuckClimb(fn / 2, sn / 2, r);
    }
  }

  /** A climb only ever adds hashes above its starting digest. */
  lemma {:induction false} ClimbKeepsLeaf<T>(fn: nat, sn: nat, r: Digest<T>, path: seq<Digest<T>>, x: T)
    requires fn <= sn && x in LeavesBelow(r)
    ensures Climb(fn, sn, r, path).Some? ==> x in LeavesBelow(Climb(fn, sn, r, path).value)
    decreases sn
  {
    if sn != 0 {
      if fn % 2 == 0 && fn == sn {
        ClimbKeepsLeaf(fn / 2, sn / 2, r, path, x);
      } else if path != [] {
        var up := if fn % 2 == 1 then NodeHash(path[0], r) else NodeHash(r, path[0]);
        ClimbKeepsLeaf(fn / 2, sn / 2, up, path[1..], x);
      }
    }
  }

  /** Even with a forged tree size and index, nothing outside the log is ever
      accepted against a true root. */
  lemma AcceptedLeafIsInLog<T>(leaves: seq<T>, leaf: T, fn: nat, sn: nat, path: seq<Digest<T>>)
    requires fn <= sn && Climb(fn, sn, LeafHash(leaf), path) == Some(Mth(leaves))
    ensures leaf in leaves
  {
    ClimbKeepsLeaf(fn, sn, LeafHash(leaf), path, leaf);
    MthDeterminesLeaves(leaves);
  }

  // ---------- consistency ----------

  /** Bitwise conjunction of two naturals. */
  function BitAnd(a: nat, b: nat): nat {
    if a == 0 || b == 0 then 0 else (a % 2) * (b % 2) + 2 * BitAnd(a / 2, b / 2)
  }

  /** An odd number divided by all its factors of two. */
  function OddPart(m: nat): (o: nat)
    requires m >= 1
    ensures 1 <= o <= m && o % 2 == 1
  {
    if m % 2 == 1 then m else OddPart(m / 2)
  }

  lemma {:induction false} BitAndSelf(m: nat)
    ensures BitAnd(m, m) == m
  {
    hide BitAnd;
    BitAndStep(m, m);
    if m > 0 {
      BitAndSelf(m / 2);
      var bit := m % 2;
      assert bit * bit == bit by {
        BitSquare(bit);
      }
      assert m == bit + 2 * (m / 2);
    }
  }

  lemma BitAndStep(a: nat, b: nat)
    ensures BitAnd(a, b) == if a == 0 || b == 0 then 0 else (a % 2) * (b % 2) + 2 * BitAnd(a / 2, b / 2)
  {
  }

  lemma BitSquare(bit: nat)
    requires bit <= 1
    ensures bit * bit == bit
  {
  }

  /** The source's bit trick recognizes exactly the powers of two. */
  lemma {:induction false} PowerOfTwoBitTrick(m: nat)
    requires m >= 1
    ensures BitAnd(m, m - 1) == 0 <==> IsPowerOfTwo(m)
    ensures IsPowerOfTwo(m) <==> OddPart(m) == 1
  {
    if m % 2 == 0 {
      PowerOfTwoBitTrick(m / 2);
      assert (m - 1) / 2 == m / 2 - 1;
    } else if m > 1 {
      assert (m - 1) / 2 == m / 2;
      BitAndSelf(m / 2);
    }
  }

  /** Both roots rebuilt in lock step from index fn of two layers; fr belongs
      to the first tree. */
  predicate DualClimb<T(==)>(fn: nat, sn: nat, fr: Digest<T>, sr: Digest<T>, path: seq<Digest<T>>,
                             first: Digest<T>, second: Digest<T>)
    requires fn <= sn
    decreases sn
  {
    if sn == 0 then
      path == [] && fr == first && sr == second
    else if fn % 2 == 0 && fn == sn then
      DualClimb(fn / 2, sn / 2, fr, sr, path, first, second)
    else if path == [] then
      false
    else if fn % 2 == 1 then
      DualClimb(fn / 2, sn / 2, NodeHash(path[0], fr), NodeHash(path[0], sr), path[1..], first, second)
    else
      DualClimb(fn / 2, sn / 2, fr, NodeHash(sr, path[0]), path[1..], first, second)
  }

  lemma {:induction false} StuckDualClimb<T>(fn: nat, sn: nat, fr: Digest<T>, sr: Digest<T>,
                                             first: Digest<T>, second: Digest<T>)
    requires fn <= sn
    ensures DualClimb(fn, sn, fr, sr, [], first, second) <==> sn == 0 && fr == first && sr == second
    decreases sn
  {
    if sn != 0 && fn % 2 == 0 && fn == sn {
      StuckDualClimb(fn / 2, sn / 2, fr, sr, first, second);
    }
  }

  /** Index arithmetic of the last element of a layer of n elements. */
  lemma LastIndex(n: nat)
    requires n >= 1
    ensures (n - 1) % 2 == 0 <==> n % 2 == 1
    ensures (n - 1) / 2 == (n + 1) / 2 - 1
  {
  }

  /** Layers a and b agree before the last element of a exactly when their
      layers one level up do and, for an odd index, the element before agrees. */
  lemma PairedPrefix<T>(a: seq<Digest<T>>, b: seq<Digest<T>>)
    requires 1 <= |a| <= |b|
    ensures var fn := |a| - 1;
      a[..fn] == b[..fn] <==>
        && (fn % 2 == 1 ==> a[fn - 1] == b[fn - 1])
        && Pair(a)[..fn / 2] == Pair(b)[..fn / 2]
  {
    var fn := |a| - 1;
    if (fn % 2 == 1 ==> a[fn - 1] == b[fn - 1]) && Pair(a)[..fn / 2] == Pair(b)[..fn / 2] {
      forall i | 0 <= i < fn ensures a[i] == b[i] {
        if i / 2 < fn / 2 {
          assert Pair(a)[..fn / 2][i / 2] == Pair(b)[..fn / 2][i / 2];
          assert Pair(a)[i / 2] == NodeHash(a[2 * (i / 2)], a[2 * (i / 2) + 1]);
          assert Pair(b)[i / 2] == NodeHash(b[2 * (i / 2)], b[2 * (i / 2) + 1]);
        }
      }
    }
  }

  /** The digests at index |a| - 1 are fr and sr, the layers agree below it,
      and path is its audit path in the larger layer. */
  ghost predicate DualFits<T>(a: seq<Digest<T>>, b: seq<Digest<T>>,
                              fr: Digest<T>, sr: Digest<T>, path: seq<Digest<T>>)
    requires 1 <= |a| <= |b|
  {
    var fn := |a| - 1;
    fr == a[fn] && sr == b[fn] && a[..fn] == b[..fn] && path == AuditPath(fn, b)
  }

  /** Fitting a layer is fitting the layer above after one verifier step:
      both odd last elements are promoted, ... */
  lemma DualFitsPromoted<T>(a: seq<Digest<T>>, b: seq<Digest<T>>,
                            fr: Digest<T>, sr: Digest<T>, path: seq<Digest<T>>)
    requires 2 <= |a| == |b| && |a| % 2 == 1
    ensures DualFits(a, b, fr, sr, path) <==> DualFits(Pair(a), Pair(b), fr, sr, path)
  {
    hide AuditPath, SplitPoint, Pair;
    var fn := |a| - 1;
    LastIndex(|a|);
    PairAt(fn, a);
    PairAt(fn, b);
    PairedPrefix(a, b);
    assert AuditPath(fn, b) == AuditPath(fn / 2, Pair(b)) by {
      AuditPathByLevel(fn, b);
      NothingInFront(Sibling(fn, b), AuditPath(fn / 2, Pair(b)));
    }
  }

  lemma NothingInFront<D>(a: seq<D>, b: seq<D>)
    ensures a == [] ==> a + b == b
  {
  }

  /** ... or both join a common left sibling, ... */
  lemma DualFitsLeft<T>(a: seq<Digest<T>>, b: seq<Digest<T>>,
                        fr: Digest<T>, sr: Digest<T>, c: Digest<T>, rest: seq<Digest<T>>)
    requires 2 <= |a| <= |b| && |a| % 2 == 0
    ensures DualFits(a, b, fr, sr, [c] + rest)
       <==> DualFits(Pair(a), Pair(b), NodeHash(c, fr), NodeHash(c, sr), rest)
  {
    hide AuditPath, SplitPoint, Pair;
    var fn := |a| - 1;
    LastIndex(|a|);
    AuditPathByLevel(fn, b);
    PairAt(fn, a);
    PairAt(fn, b);
    PairedPrefix(a, b);
    ConsPath([c] + rest, b[fn - 1], AuditPath(fn / 2, Pair(b)));
  }

  /** ... or only the second joins a right sibling. */
  lemma DualFitsRight<T>(a: seq<Digest<T>>, b: seq<Digest<T>>,
                         fr: Digest<T>, sr: Digest<T>, c: Digest<T>, rest: seq<Digest<T>>)
    requires 1 <= |a| < |b| && |a| % 2 == 1
    ensures DualFits(a, b, fr, sr, [c] + rest) <==> DualFits(Pair(a), Pair(b), fr, NodeHash(sr, c), rest)
  {
    hide AuditPath, SplitPoint, Pair;
    var fn := |a| - 1;
    LastIndex(|a|);
    AuditPathByLevel(fn, b);
    PairAt(fn, a);
    PairAt(fn, b);
    PairedPrefix(a, b);
    ConsPath([c] + rest, b[fn + 1], AuditPath(fn / 2, Pair(b)));
  }

  /** A layer with a sibling at fn is fitted by no empty path. */
  lemma DualFitsNeedsPath<T>(a: seq<Digest<T>>, b: seq<Digest<T>>, fr: Digest<T>, sr: Digest<T>)
    requires 1 <= |a| <= |b| && |b| >= 2 && !(|a| % 2 == 1 && |a| == |b|)
    ensures !DualFits(a, b, fr, sr, [])
  {
    AuditPathByLevel(|a| - 1, b);
  }

  /** One step of the dual climb, matched with one level of the layers. */
  lemma DualClimbOneLayer<T>(a: seq<Digest<T>>, b: seq<Digest<T>>,
                             fr: Digest<T>, sr: Digest<T>, path: seq<Digest<T>>)
    requires |a| == |b| == 1
    ensures DualClimb(0, 0, fr, sr, path, TreeHash(a), TreeHash(b)) <==> DualFits(a, b, fr, sr, path)
  {
  }

  /** On two true roots the dual climb accepts only digests of the two layers
      at fn, equal layers below fn, and one path. */
  lemma {:induction false} DualClimbExact<T>(a: seq<Digest<T>>, b: seq<Digest<T>>,
                                             fr: Digest<T>, sr: Digest<T>, path: seq<Digest<T>>)
    requires 1 <= |a| <= |b|
    ensures DualClimb(|a| - 1, |b| - 1, fr, sr, path, TreeHash(a), TreeHash(b))
       <==> DualFits(a, b, fr, sr, path)
    decreases |b|
  {
    hide AuditPath, SplitPoint, TreeHash, DualFits, Pair;
    if |b| == 1 {
      DualClimbOneLayer(a, b, fr, sr, path);
    } else {
      var fn, upA, upB := |a| - 1, Pair(a), Pair(b);
      PairKeepsTreeHash(a);
      PairKeepsTreeHash(b);
      LastIndex(|a|);
      LastIndex(|b|);
      if fn % 2 == 0 && |a| == |b| {
        DualFitsPromoted(a, b, fr, sr, path);
        DualClimbExact(upA, upB, fr, sr, path);
      } else if path == [] {
        DualFitsNeedsPath(a, b, fr, sr);
      } else {
        var c, rest := path[0], path[1..];
        assert path == [c] + rest;
        if fn % 2 == 1 {
          DualFitsLeft(a, b, fr, sr, c, rest);
          DualClimbExact(upA, upB, NodeHash(c, fr), NodeHash(c, sr), rest);
        } else {
          DualFitsRight(a, b, fr, sr, c, rest);
          DualClimbExact(upA, upB, fr, NodeHash(sr, c), rest);
        }
      }
    }
  }

  /** The verifier's decision once its path is assembled: strip the levels at
      which the first tree is complete, then climb from the first element. */
  predicate Consistent<T(==)>(fn: nat, sn: nat, path: seq<Digest<T>>, first: Digest<T>, second: Digest<T>)
    requires fn <= sn
  {
    if fn % 2 == 1 then Consistent(fn / 2, sn / 2, path, first, second)
    else path != [] && DualClimb(fn, sn, path[0], path[0], path[1..], first, second)
  }

  lemma EvenPrefix<T>(a: seq<Digest<T>>, b: seq<Digest<T>>)
    requires |a| <= |b| && |a| % 2 == 0
    ensures a == b[..|a|] <==> Pair(a) == Pair(b)[..|a| / 2]
  {
    if Pair(a) == Pair(b)[..|a| / 2] {
      forall i | 0 <= i < |a| ensures a[i] == b[i] {
        assert Pair(a)[i / 2] == Pair(b)[..|a| / 2][i / 2];
        assert Pair(a)[i / 2] == NodeHash(a[2 * (i / 2)], a[2 * (i / 2) + 1]);
        assert Pair(b)[i / 2] == NodeHash(b[2 * (i / 2)], b[2 * (i / 2) + 1]);
      }
    } else {
      PairSplit(b, |a|);
    }
  }

  lemma {:induction false} ConsistentExact<T>(a: seq<Digest<T>>, b: seq<Digest<T>>, path: seq<Digest<T>>)
    requires 1 <= |a| < |b|
    ensures Consistent(|a| - 1, |b| - 1, path, TreeHash(a), TreeHash(b))
       <==> a == b[..|a|] && path == SubProof(|a|, b, false)
    decreases |b|
  {
    hide AuditPath, SplitPoint, TreeHash, Pair, SubProof, DualClimb;
    LastIndex(|a|);
    LastIndex(|b|);
    if |a| % 2 == 0 {
      EvenPrefix(a, b);
      PairKeepsTreeHash(a);
      PairKeepsTreeHash(b);
      SubProofEvenSize(|a| / 2, b, false);
      ConsistentExact(Pair(a), Pair(b), path);
    } else {
      var fn := |a| - 1;
      SubProofOddSize(|a|, b, false);
      ConsPath(path, b[fn], AuditPath(fn, b));
      if path != [] {
        DualClimbExact(a, b, path[0], path[0], path[1..]);
        SplitLast(a, b);
      }
    }
  }

  lemma SplitLast<D>(a: seq<D>, b: seq<D>)
    requires 1 <= |a| <= |b|
    ensures a == b[..|a|] <==> a[|a| - 1] == b[|a| - 1] && a[..|a| - 1] == b[..|a| - 1]
  {
    if a[|a| - 1] == b[|a| - 1] && a[..|a| - 1] == b[..|a| - 1] {
      assert a == a[..|a| - 1] + [a[|a| - 1]];
      assert b[..|a|] == b[..|a| - 1] + [b[|a| - 1]];
    }
  }

  /** Leaving the old root out of the proof is lossless exactly when the old
      size is a power of two. */
  lemma {:induction false} SubProofSeed<T>(m: nat, ds: seq<Digest<T>>)
    requires 1 <= m < |ds|
    ensures SubProof(m, ds, false)
         == (if OddPart(m) == 1 then [TreeHash(ds[..m])] else []) + SubProof(m, ds, true)
    decreases |ds|
  {
    hide AuditPath, SplitPoint, TreeHash, Pair, SubProof;
    if m % 2 == 0 {
      SubProofEvenSize(m / 2, ds, false);
      SubProofEvenSize(m / 2, ds, true);
      PairSplit(ds, m);
      PairKeepsTreeHash(ds[..m]);
      SubProofSeed(m / 2, Pair(ds));
    } else {
      SubProofOddSize(m, ds, false);
      SubProofOddSize(m, ds, true);
      if m == 1 {
        TreeHashOfOne(ds[..1]);
      }
      NothingInFront([], AuditPath(m - 1, ds));
      NothingInFront([], SubProof(m, ds, true));
    }
  }

  lemma TreeHashOfOne<T>(ds: seq<Digest<T>>)
    ensures |ds| == 1 ==> TreeHash(ds) == ds[0]
  {
  }

  /** The proof an honest log sends for growth from m leaves to all of them. */
  function ConsistencyPath<T>(m: nat, leaves: seq<T>): seq<Digest<T>>
    requires 1 <= m <= |leaves|
  {
    if m == |leaves| then [] else SubProof(m, LeafHashes(leaves), true)
  }

  /** What the verifier decides between two logs: it accepts exactly when the
      first is a prefix of the second, with the proof the log would issue. */
  ghost predicate ConsistencyHolds<T>(old_: seq<T>, new_: seq<T>, proof: seq<Untrusted<T>>) {
    1 <= |old_| <= |new_| && old_ == new_[..|old_|] && proof == Sent(ConsistencyPath(|old_|, new_))
  }

  function SeededPath<T>(m: nat, first: Digest<T>, proof: seq<Digest<T>>): seq<Digest<T>>
    requires m >= 1
  {
    if BitAnd(m, m - 1) == 0 then [first] + proof else proof
  }

  lemma LeafHashesPrefix<T>(old_: seq<T>, new_: seq<T>)
    requires |old_| <= |new_|
    ensures LeafHashes(old_) == LeafHashes(new_)[..|old_|] <==> old_ == new_[..|old_|]
  {
    if LeafHashes(old_) == LeafHashes(new_)[..|old_|] {
      forall i | 0 <= i < |old_| ensures old_[i] == new_[i] {
        assert LeafHashes(old_)[i] == LeafHashes(new_)[..|old_|][i];
      }
    }
  }

  /** Prepending the first root makes up for the digest the prover leaves out. */
  lemma SeededMatches<T>(m: nat, b: seq<Digest<T>>, proof: seq<Digest<T>>)
    requires 1 <= m < |b|
    ensures SeededPath(m, TreeHash(b[..m]), proof) == SubProof(m, b, false) <==> proof == SubProof(m, b, true)
  {
    hide TreeHash, SubProof;
    SubProofSeed(m, b);
    PowerOfTwoBitTrick(m);
    var root, rest := TreeHash(b[..m]), SubProof(m, b, true);
    if OddPart(m) == 1 {
      ConsPath([root] + proof, root, rest);
    } else {
      NothingInFront([], rest);
    }
  }

  lemma ConsistencyExact<T>(old_: seq<T>, new_: seq<T>, proof: seq<Digest<T>>)
    requires 1 <= |old_| < |new_|
    ensures Consistent(|old_| - 1, |new_| - 1, SeededPath(|old_|, Mth(old_), proof), Mth(old_), Mth(new_))
       <==> old_ == new_[..|old_|] && proof == ConsistencyPath(|old_|, new_)
  {
    hide TreeHash, SubProof, Consistent, LeafHashes, SeededPath;
    var m, a, b := |old_|, LeafHashes(old_), LeafHashes(new_);
    ConsistentExact(a, b, SeededPath(m, TreeHash(a), proof));
    LeafHashesPrefix(old_, new_);
    SeededMatches(m, b, proof);
  }

  lemma EmptyPathInconsistent<T>(fn: nat, sn: nat, first: Digest<T>, second: Digest<T>)
    requires fn <= sn
    ensures !Consistent(fn, sn, [], first, second)
  {
  }

  /** The verifier's branches, as one condition. */
  predicate ConsistencyAccepts<T(==)>(firstSize: int, secondSize: int, firstRoot: Untrusted<T>,
                                      secondRoot: Untrusted<T>, proof: seq<Untrusted<T>>) {
    && 1 <= firstSize <= secondSize && firstRoot.Some? && secondRoot.Some? && WellFormed(proof)
    && if firstSize == secondSize then proof == [] && firstRoot == secondRoot
       else Consistent(firstSize - 1, secondSize - 1,
                       SeededPath(firstSize, firstRoot.value, Digests(proof)), firstRoot.value, secondRoot.value)
  }

  /** Soundness, completeness and uniqueness of consistency proofs at once. */
  lemma AcceptsExactly<T>(old_: seq<T>, new_: seq<T>, proof: seq<Untrusted<T>>)
    ensures ConsistencyAccepts(|old_|, |new_|, Some(Mth(old_)), Some(Mth(new_)), proof)
       <==> ConsistencyHolds(old_, new_, proof)
  {
    hide Mth, Consistent, SeededPath, SubProof;
    if 1 <= |old_| <= |new_| {
      SentDigests(proof, ConsistencyPath(|old_|, new_));
      if |old_| == |new_| {
        if Mth(old_) == Mth(new_) {
          RootCommitsToLeaves(old_, new_);
        }
        assert new_[..|old_|] == new_;
      } else if WellFormed(proof) {
        ConsistencyExact(old_, new_, Digests(proof));
      }
    }
  }

  /** Both roots are rebuilt from the same digests, the second from more. */
  lemma {:induction false} DualClimbGrows<T>(fn: nat, sn: nat, fr: Digest<T>, sr: Digest<T>, path: seq<Digest<T>>,
                                             first: Digest<T>, second: Digest<T>)
    requires fn <= sn && DualClimb(fn, sn, fr, sr, path, first, second)
    requires LeavesBelow(fr) <= LeavesBelow(sr)
    ensures LeavesBelow(first) <= LeavesBelow(second)
    decreases sn
  {
    if sn != 0 {
      if fn % 2 == 0 && fn == sn {
        DualClimbGrows(fn / 2, sn / 2, fr, sr, path, first, second);
      } else if fn % 2 == 1 {
        DualClimbGrows(fn / 2, sn / 2, NodeHash(path[0], fr), NodeHash(path[0], sr), path[1..], first, second);
      } else {
        DualClimbGrows(fn / 2, sn / 2, fr, NodeHash(sr, path[0]), path[1..], first, second);
      }
    }
  }

  lemma {:induction false} ConsistentGrows<T>(fn: nat, sn: nat, path: seq<Digest<T>>,
                                              first: Digest<T>, second: Digest<T>)
    requires fn <= sn && Consistent(fn, sn, path, first, second)
    ensures LeavesBelow(first) <= LeavesBelow(second)
  {
    if fn % 2 == 1 {
      ConsistentGrows(fn / 2, sn / 2, path, first, second);
    } else {
      DualClimbGrows(fn, sn, path[0], path[0], path[1..], first, second);
    }
  }

  /** Even with forged sizes, no proof ever connects the root of a log to the
      root of a log that does not extend it. */
  lemma AcceptedGrowthExtends<T>(m: int, n: int, old_: seq<T>, new_: seq<T>, proof: seq<Untrusted<T>>)
    requires ConsistencyAccepts(m, n, Some(Mth(old_)), Some(Mth(new_)), proof)
    ensures old_ <= new_
  {
    hide Mth, Consistent;
    MthDeterminesLeaves(old_);
    MthDeterminesLeaves(new_);
    if m != n {
      ConsistentGrows(m - 1, n - 1, SeededPath(m, Mth(old_), Digests(proof)), Mth(old_), Mth(new_));
    }
  }

  lemma VerdictOnTrueRoots<T(!new)>(firstSize: int, secondSize: int, firstRoot: Untrusted<T>,
                                    secondRoot: Untrusted<T>, proof: seq<Untrusted<T>>)
    ensures forall old_: seq<T>, new_: seq<T> {:trigger Mth(old_), Mth(new_)} ::
      firstSize == |old_| && firstRoot == Some(Mth(old_)) && secondSize == |new_| && secondRoot == Some(Mth(new_))
      ==> (ConsistencyAccepts(firstSize, secondSize, firstRoot, secondRoot, proof)
           <==> ConsistencyHolds(old_, new_, proof))
  {
    forall old_: seq<T>, new_: seq<T> |
      firstSize == |old_| && firstRoot == Some(Mth(old_)) && secondSize == |new_| && secondRoot == Some(Mth(new_))
      ensures ConsistencyAccepts(firstSize, secondSize, firstRoot, secondRoot, proof)
         <==> ConsistencyHolds(old_, new_, proof)
    {
      AcceptsExactly(old_, new_, proof);
    }
  }

  method VerifyConsistency<T(==,!new)>(firstSize: int, secondSize: int, firstRoot: Untrusted<T>,
                                       secondRoot: Untrusted<T>, proof: seq<Untrusted<T>>)
    returns (ok: bool)
    ensures ok <==> ConsistencyAccepts(firstSize, secondSize, firstRoot, secondRoot, proof)
    ensures forall old_: seq<T>, new_: seq<T> {:trigger Mth(old_), Mth(new_)} ::
      firstSize == |old_| && firstRoot == Some(Mth(old_)) && secondSize == |new_| && secondRoot == Some(Mth(new_))
      ==> (ok <==> ConsistencyHolds(old_, new_, proof))
  {
    hide Mth, ConsistencyHolds, BitAnd;
    VerdictOnTrueRoots(firstSize, secondSize, firstRoot, secondRoot, proof);
    if firstSize < 1 || firstSize > secondSize {
      return false;
    }
    if firstRoot.None? || secondRoot.None? || !WellFormed(proof) {
      return false;
    }
    var first, second, elements := firstRoot.value, secondRoot.value, Digests(proof);
    if firstSize == secondSize {
      return elements == [] && first == second;
    }
    var path := elements;
    if BitAnd(firstSize, firstSize - 1) == 0 {
      path := [first] + path;
    }
    ghost var verdict := Consistent(firstSize - 1, secondSize - 1, path, first, second);
    if path == [] {
      EmptyPathInconsistent(firstSize - 1, secondSize - 1, first, second);
      return false;
    }
    var fn: nat, sn: nat := firstSize - 1, secondSize - 1;
    while fn % 2 == 1
      invariant fn <= sn && Consistent(fn, sn, path, first, second) == verdict
      decreases fn
    {
      fn, sn := fn / 2, sn / 2;
    }
    var fr, sr := path[0], path[0];
    var i := 1;
    while i < |path|
      invariant 1 <= i <= |path| && fn <= sn
      invariant DualClimb(fn, sn, fr, sr, path[i..], first, second) == verdict
    {
      var c := path[i];
      assert path[i..][0] == c && path[i..][1..] == path[i + 1..];
      if sn == 0 {
        return false;
      }
      if fn % 2 == 1 || fn == sn {
        ghost var fr0, sr0 := fr, sr;
        fr := NodeHash(c, fr);
        sr := NodeHash(c, sr);
        if fn % 2 == 0 {
          while fn % 2 == 0 && fn != 0
            invariant fn == sn && sn > 0
            invariant DualClimb(fn, sn, fr0, sr0, path[i..], first, second) == verdict
            decreases fn
          {
            fn, sn := fn / 2, sn / 2;
          }
        }
      } else {
        sr := NodeHash(sr, c);
      }
      fn, sn := fn / 2, sn / 2;
      i := i + 1;
    }
    assert path[i..] == [];
    StuckDualClimb(fn, sn, fr, sr, first, second);
    return sn == 0 && fr == first && sr == second;
  }
}
