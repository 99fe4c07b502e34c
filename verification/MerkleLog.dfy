/** The append-only Merkle log object and the citation proofs it issues. */
module MerkleLogs {
  import opened Wrappers
  import opened MerkleTree
  import opened MerkleVerifiers

  datatype LogError = OutOfRange | UnknownLedgerId

  datatype TreeHead<+T> = TreeHead(runId: string, size: nat, root: Digest<T>, timestamp: string)

  /** An Ed25519 signature is opaque: only the key's holder can make one, it
      determines the head it covers, and any other text validates nothing. */
  datatype Signature<+T> = SignatureOf(head: TreeHead<T>, key: string) | Invalid(text: string)

  datatype SignedTreeHead<+T> = SignedTreeHead(head: TreeHead<T>, signer: string, signature: Signature<T>)

  datatype CitationProof<+T> = CitationProof(
    ledgerId: string, leafIndex: nat, leafData: T, auditPath: seq<Digest<T>>,
    head: TreeHead<T>, signed: Option<SignedTreeHead<T>>)

  /** Heads and citation proofs as they come in, with whatever their fields hold. */
  datatype ReceivedHead<T> = ReceivedHead(runId: string, size: int, root: Untrusted<T>, timestamp: string)

  datatype ReceivedSignedHead<T> = ReceivedSignedHead(
    head: ReceivedHead<T>, signer: string, signature: Signature<T>)

  datatype Received<T> = Received(
    leafData: T, leafIndex: int, auditPath: seq<Untrusted<T>>,
    head: ReceivedHead<T>, signed: Option<ReceivedSignedHead<T>>)

  function SentHead<T>(h: TreeHead<T>): ReceivedHead<T> {
    ReceivedHead(h.runId, h.size, Some(h.root), h.timestamp)
  }

  function SentSigned<T>(s: SignedTreeHead<T>): ReceivedSignedHead<T> {
    ReceivedSignedHead(SentHead(s.head), s.signer, s.signature)
  }

  function Transmitted<T>(p: CitationProof<T>): Received<T> {
    Received(p.leafData, p.leafIndex, Sent(p.auditPath), SentHead(p.head),
             if p.signed.Some? then Some(SentSigned(p.signed.value)) else None)
  }

  /** The head's size and root commit to a prefix of the leaves. */
  ghost predicate Covers<T>(head: TreeHead<T>, leaves: seq<T>) {
    1 <= head.size <= |leaves| && head.root == Mth(leaves[..head.size])
  }

  /** The decision of verify_citation. */
  ghost predicate Included<T>(p: Received<T>) {
    InclusionAccepts(p.leafData, p.leafIndex, p.head.size, p.auditPath, p.head.root)
  }

  ghost predicate CitationVerifies<T>(p: CitationProof<T>) {
    Included(Transmitted(p))
  }

  method VerifyCitation<T(==,!new)>(p: Received<T>) returns (ok: bool)
    ensures ok <==> Included(p)
    ensures forall leaves: seq<T> {:trigger Mth(leaves)} ::
      p.head.size == |leaves| && p.head.root == Some(Mth(leaves)) ==>
        (ok <==> InclusionHolds(leaves, p.leafData, p.leafIndex, p.auditPath))
  {
    ok := VerifyInclusion(p.leafData, p.leafIndex, p.head.size, p.auditPath, p.head.root);
  }

  /** The pinned key made this signature, over this very head. */
  predicate ValidFor<T(==)>(signed: ReceivedSignedHead<T>, key: string) {
    && key != "" && signed.signer == key
    && signed.signature.SignatureOf? && signed.signature.key == key
    && SentHead(signed.signature.head) == signed.head
  }

  /** The proof carries the pinned key's signature over the head it is bound to. */
  predicate SignedFor<T(==)>(p: Received<T>, key: string) {
    p.signed.Some? && p.signed.value.head == p.head && ValidFor(p.signed.value, key)
  }

  ghost predicate SignedCitationVerifies<T>(p: Received<T>, key: string) {
    Included(p) && SignedFor(p, key)
  }

  /** Whatever comes in, an accepted proof carries a signature of the pinned key
      over a well-formed head with the size and root the inclusion was checked
      against; on a head over known leaves the decision is exact. */
  method VerifySignedCitation<T(==,!new)>(p: Received<T>, key: string) returns (ok: bool)
    ensures ok <==> SignedCitationVerifies(p, key)
    ensures ok ==> p.head.size > 0 && p.head.root.Some? && p.signed.Some?
    ensures ok ==>
      p.signed.value.signature
      == SignatureOf(TreeHead(p.head.runId, p.head.size, p.head.root.value, p.head.timestamp), key)
    ensures forall leaves: seq<T> {:trigger Mth(leaves)} ::
      p.head.size == |leaves| && p.head.root == Some(Mth(leaves)) ==>
        (ok <==> InclusionHolds(leaves, p.leafData, p.leafIndex, p.auditPath) && SignedFor(p, key))
  {
    var included := VerifyCitation(p);
    if !included || p.signed.None? {
      return false;
    }
    if p.signed.value.head != p.head {
      return false;
    }
    return ValidFor(p.signed.value, key);
  }

  /** Two heads over prefixes of one log: the proof the log issues between
      them is accepted, and no other proof is. */
  lemma HeadsConsistent<T>(leaves: seq<T>, older: TreeHead<T>, newer: TreeHead<T>, proof: seq<Untrusted<T>>)
    requires Covers(older, leaves) && Covers(newer, leaves) && older.size <= newer.size
    ensures ConsistencyAccepts(older.size, newer.size, Some(older.root), Some(newer.root), proof)
       <==> proof == Sent(ConsistencyPath(older.size, leaves[..newer.size]))
  {
    assert leaves[..newer.size][..older.size] == leaves[..older.size];
    AcceptsExactly(leaves[..older.size], leaves[..newer.size], proof);
  }

  class MerkleLog<T(==,!new)> {
    const runId: string
    var leaves: seq<T>

    constructor (runId: string, leaves: seq<T>)
      ensures this.runId == runId && this.leaves == leaves
    {
      this.runId, this.leaves := runId, leaves;
    }

    /** Earlier roots, and with them every head already issued, survive. */
    method Append(leafData: T) returns (index: nat)
      modifies this
      ensures leaves == old(leaves) + [leafData] && index == |old(leaves)|
      ensures forall head :: Covers(head, old(leaves)) ==> Covers(head, leaves)
    {
      leaves := leaves + [leafData];
      index := |leaves| - 1;
      assert forall n :: 0 <= n <= |old(leaves)| ==> leaves[..n] == old(leaves)[..n];
    }

    method RootHash(treeSize: Option<int>) returns (r: Result<Digest<T>, LogError>)
      ensures var n := if treeSize.None? then |leaves| else treeSize.value;
        r == if 0 <= n <= |leaves| then Success(Mth(leaves[..n])) else Failure(OutOfRange)
    {
      var n := if treeSize.None? then |leaves| else treeSize.value;
      if n < 0 || n > |leaves| {
        return Failure(OutOfRange);
      }
      var root := HashRange(0, n);
      return Success(root);
    }

    /** Tree hash of leaves[start..end], by recursion on the split point. */
    method HashRange(start: nat, end: nat) returns (d: Digest<T>)
      requires start <= end <= |leaves|
      ensures d == Mth(leaves[start..end])
      decreases end - start
    {
      hide Mth, SplitPoint;
      var n := end - start;
      ghost var range := leaves[start..end];
      MthRecursion(range);
      if n == 0 {
        return EmptyRoot;
      }
      if n == 1 {
        return LeafHash(leaves[start]);
      }
      var k := LargestPowerOfTwoBelow(n);
      assert range[..k] == leaves[start..start + k] && range[k..] == leaves[start + k..end];
      var left := HashRange(start, start + k);
      var right := HashRange(start + k, end);
      d := NodeHash(left, right);
    }

    /** Audit path of leaf m of leaves[start..end]. */
    method PathInRange(m: nat, start: nat, end: nat) returns (path: seq<Digest<T>>)
      requires start + m < end <= |leaves|
      ensures path == AuditPath(m, LeafHashes(leaves[start..end]))
      decreases end - start
    {
      var n := end - start;
      hide SplitPoint, AuditPath, TreeHash, LeafHashes;
      if n <= 1 {
        AuditPathOfOne(LeafHashes(leaves[start..end]), m);
        return [];
      }
      var k := LargestPowerOfTwoBelow(n);
      LeafHashesHalves(start, end, k);
      AuditPathUnfold(m, LeafHashes(leaves[start..end]), k);
      if m < k {
        path := PathInRange(m, start, start + k);
        var sibling := HashRange(start + k, end);
        path := path + [sibling];
      } else {
        path := PathInRange(m - k, start + k, end);
        var sibling := HashRange(start, start + k);
        path := path + [sibling];
      }
    }

    lemma LeafHashesHalves(start: nat, end: nat, k: nat)
      requires start + 1 <= start + k < end <= |leaves|
      ensures LeafHashes(leaves[start..end])[..k] == LeafHashes(leaves[start..start + k])
      ensures LeafHashes(leaves[start..end])[k..] == LeafHashes(leaves[start + k..end])
    {
      LeafHashesSplit(leaves[start..end], k);
      assert leaves[start..end][..k] == leaves[start..start + k];
      assert leaves[start..end][k..] == leaves[start + k..end];
    }

    method InclusionProof(leafIndex: int, treeSize: Option<int>)
      returns (r: Result<seq<Digest<T>>, LogError>)
      ensures var n := if treeSize.None? then |leaves| else treeSize.value;
        if 0 <= leafIndex < n <= |leaves| then
          r.Success? && InclusionHolds(leaves[..n], leaves[leafIndex], leafIndex, Sent(r.value))
        else r == Failure(OutOfRange)
    {
      var n := if treeSize.None? then |leaves| else treeSize.value;
      if !(0 <= leafIndex < n) || n > |leaves| {
        return Failure(OutOfRange);
      }
      var path := PathInRange(leafIndex, 0, n);
      assert leaves[0..n] == leaves[..n];
      return Success(path);
    }

    /** Proof for the first m of leaves[start..end]. */
    method SubProofInRange(m: nat, start: nat, end: nat, complete: bool) returns (path: seq<Digest<T>>)
      requires 1 <= m && start + m <= end <= |leaves|
      ensures path == SubProof(m, LeafHashes(leaves[start..end]), complete)
      decreases end - start
    {
      hide SplitPoint, SubProof, TreeHash, LeafHashes;
      var n := end - start;
      if m == n {
        SubProofOfWhole(LeafHashes(leaves[start..end]), complete);
        if complete {
          return [];
        }
        var whole := HashRange(start, end);
        return [whole];
      }
      var k := LargestPowerOfTwoBelow(n);
      LeafHashesHalves(start, end, k);
      SubProofUnfold(m, LeafHashes(leaves[start..end]), complete, k);
      if m <= k {
        path := SubProofInRange(m, start, start + k, complete);
        var right := HashRange(start + k, end);
        path := path + [right];
      } else {
        path := SubProofInRange(m - k, start + k, end, false);
        var left := HashRange(start, start + k);
        path := path + [left];
      }
    }

    method ConsistencyProof(firstSize: int, secondSize: Option<int>)
      returns (r: Result<seq<Digest<T>>, LogError>)
      ensures var n := if secondSize.None? then |leaves| else secondSize.value;
        if 1 <= firstSize <= n <= |leaves| then
          r.Success? && ConsistencyHolds(leaves[..firstSize], leaves[..n], Sent(r.value))
        else r == Failure(OutOfRange)
    {
      var n := if secondSize.None? then |leaves| else secondSize.value;
      if !(1 <= firstSize <= n) || n > |leaves| {
        return Failure(OutOfRange);
      }
      assert leaves[..n][..firstSize] == leaves[..firstSize];
      if firstSize == n {
        return Success([]);
      }
      var path := SubProofInRange(firstSize, 0, n, true);
      assert leaves[0..n] == leaves[..n];
      return Success(path);
    }

    method Head(now: string) returns (head: TreeHead<T>)
      ensures head == TreeHead(runId, |leaves|, Mth(leaves), now)
      ensures leaves != [] ==> Covers(head, leaves)
    {
      var root := RootHash(None);
      assert leaves[..|leaves|] == leaves;
      head := TreeHead(runId, |leaves|, root.value, now);
    }

    /** Bundle the inclusion proof of the first row with the given id. */
    method ProveCitation(rowIds: seq<string>, ledgerId: string, now: string)
      returns (r: Result<CitationProof<T>, LogError>)
      ensures r == Failure(UnknownLedgerId) <==> ledgerId !in rowIds
      ensures |rowIds| <= |leaves| && ledgerId in rowIds ==> r.Success?
      ensures r.Success? ==>
        && r.value.leafIndex < |rowIds| && r.value.leafIndex < |leaves|
        && rowIds[r.value.leafIndex] == ledgerId && ledgerId !in rowIds[..r.value.leafIndex]
        && r.value.ledgerId == ledgerId
        && r.value.head == TreeHead(runId, |leaves|, Mth(leaves), now) && r.value.signed == None
        && InclusionHolds(leaves, r.value.leafData, r.value.leafIndex, Sent(r.value.auditPath))
        && CitationVerifies(r.value)
    {
      var index := 0;
      while index < |rowIds|
        invariant 0 <= index <= |rowIds| && ledgerId !in rowIds[..index]
      {
        if rowIds[index] == ledgerId {
          if index >= |leaves| {
            return Failure(OutOfRange);
          }
          var path := InclusionProof(index, None);
          var head := Head(now);
          assert leaves[..|leaves|] == leaves;
          InclusionExact(leaves, leaves[index], index, Sent(path.value));
          return Success(CitationProof(ledgerId, index, leaves[index], path.value, head, None));
        }
        index := index + 1;
      }
      return Failure(UnknownLedgerId);
    }
  }
}
