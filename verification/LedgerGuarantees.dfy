/** What the evidence ledger promises to people outside it. */
module LedgerGuarantees {
  import opened Wrappers
  import opened MerkleTree
  import opened MerkleVerifiers
  import opened MerkleLogs
  import opened LedgerModel
  import opened LedgerHistory

  // ---------- append-only across publications ----------

  lemma {:induction false} PublishedGrows(w: World, ops: seq<Op>)
    ensures |w.published| <= |Run(w, ops).published| && Run(w, ops).published[..|w.published|] == w.published
    decreases |ops|
  {
    hide Persist, Annotate, RecordRow, Load, Seal;
    if ops != [] {
      PublishedGrowsByOne(w, ops[0]);
      PublishedGrows(Step(w, ops[0]), ops[1..]);
    }
  }

  lemma PublishedGrowsByOne(w: World, op: Op)
    ensures |w.published| <= |Step(w, op).published| && Step(w, op).published[..|w.published|] == w.published
  {
  }

  /** Every head ever written to disk covers the oldest rows of the ledger as it
      is now, however much was recorded, annotated and resealed since. */
  lemma PublishedHeadsCover(w: World, ops: seq<Op>, h: Head)
    requires Inv(w) && FreshIds(w, ops) && h in Run(w, ops).published
    ensures Covers(h, TrueLeaves(Run(w, ops).ledger.rows))
  {
    hide Run, Covers, LedgerOk, FileOk;
    RunOk(w, ops);
    var v := Run(w, ops);
    CoversLonger(h, v.canonical.file.rows, v.ledger.rows);
  }

  /** Any two published heads are connected by one consistency proof, the one
      the current log issues; no other proof is accepted. */
  lemma PublishedHeadsConsistent(runId: string, durable: bool, ops: seq<Op>, older: Head, newer: Head,
                                 proof: seq<Untrusted<ChainHash>>)
    requires FreshIds(Start(runId, durable), ops)
    requires older in Run(Start(runId, durable), ops).published && newer in Run(Start(runId, durable), ops).published
    requires older.size <= newer.size
    ensures var leaves := TrueLeaves(Run(Start(runId, durable), ops).ledger.rows);
      && newer.size <= |leaves| && older.size >= 1
      && (ConsistencyAccepts(older.size, newer.size, Some(older.root), Some(newer.root), proof)
          <==> proof == Sent(ConsistencyPath(older.size, leaves[..newer.size])))
  {
    hide Run, Inv, FreshIds;
    StartOk(runId, durable);
    PublishedHeadsCover(Start(runId, durable), ops, older);
    PublishedHeadsCover(Start(runId, durable), ops, newer);
    HeadsConsistent(TrueLeaves(Run(Start(runId, durable), ops).ledger.rows), older, newer, proof);
  }

  lemma SameRootSameContents(h: Head, a: seq<Row>, b: seq<Row>)
    requires Covers(h, TrueLeaves(a)) && Covers(h, TrueLeaves(b))
    ensures h.size <= |a| && h.size <= |b| && Contents(a)[..h.size] == Contents(b)[..h.size]
  {
    RootCommitsToLeaves(TrueLeaves(a)[..h.size], TrueLeaves(b)[..h.size]);
    ChainPrefix(Contents(a), h.size);
    ChainPrefix(Contents(b), h.size);
    ChainInjective(Contents(a)[..h.size], Contents(b)[..h.size]);
  }

  /** The contents under a published head never change again. */
  lemma PublishedRowsFrozen(runId: string, durable: bool, before: seq<Op>, after: seq<Op>, h: Head)
    requires FreshIds(Start(runId, durable), before + after)
    requires h in Run(Start(runId, durable), before).published
    ensures var then_, now_ := Run(Start(runId, durable), before).ledger.rows,
                               Run(Start(runId, durable), before + after).ledger.rows;
      h.size <= |then_| && h.size <= |now_| && Contents(now_)[..h.size] == Contents(then_)[..h.size]
  {
    hide Run, Inv, FreshIds, Covers;
    var w := Start(runId, durable);
    StartOk(runId, durable);
    RunAppend(w, before, after);
    PublishedGrows(Run(w, before), after);
    PublishedHeadsCover(w, before, h);
    PublishedHeadsCover(w, before + after, h);
    SameRootSameContents(h, Run(w, before).ledger.rows, Run(w, before + after).ledger.rows);
  }

  // ---------- the hash chain ----------

  /** verify_chain reports nothing in any state reached from an empty ledger. */
  lemma ReachableChainVerifies(runId: string, durable: bool, ops: seq<Op>)
    requires FreshIds(Start(runId, durable), ops)
    ensures ChainIssues(Seal(Run(Start(runId, durable), ops).ledger).rows) == []
  {
    hide Run, FreshIds, Seal, ChainIssues;
    StartOk(runId, durable);
    RunOk(Start(runId, durable), ops);
    SealOk(Run(Start(runId, durable), ops).ledger);
    NoIssuesIffSealed(Seal(Run(Start(runId, durable), ops).ledger).rows);
  }

  /** Replacing a row by one that is linked to the tip breaks the chain. */
  lemma LinkedToTipBreaks(rows: seq<Row>, i: nat, c: Content)
    requires Sealed(rows) && i < |rows|
    ensures !Sealed(rows[i := Row(c, Tip(rows), Linked(c, Tip(rows)))])
  {
    hide Sealed, Contents, ChainOf, Tip;
    var replaced := rows[i := Row(c, Tip(rows), Linked(c, Tip(rows)))];
    if Sealed(replaced) {
      SealedAt(replaced, i);
      SealedTip(rows);
      ChainOfInjective(Contents(rows), Contents(replaced)[..i + 1][..i]);
      assert false;
    }
  }

  /** The fresh id is exactly what recording needs: a row recorded under an
      existing id replaces the old row in place but is linked to the tip. The
      source draws the ids at random, so this takes a collision. */
  lemma RecordKeepsChainIffFreshId(l: Ledger, c: Content)
    requires LedgerOk(l)
    ensures ChainIssues(RecordRow(l, c).0.rows) == [] <==> Find(l.rows, c.id) == |l.rows|
  {
    hide ChainIssues, Seal, LedgerOk, Sealed, Find, RecordRow, Contents, Tip;
    NoIssuesIffSealed(RecordRow(l, c).0.rows);
    SealOk(l);
    SealFields(l);
    FindByContents(l.rows, Seal(l).rows, c.id);
    if Find(l.rows, c.id) == |l.rows| {
      RecordLedgerOk(l, c);
      RecordNotStale(l, c);
      SealedUnlessStale(RecordRow(l, c).0);
    } else {
      LinkedToTipBreaks(Seal(l).rows, Find(l.rows, c.id), c);
      RecordReplaces(l, c);
    }
  }

  lemma SealedUnlessStale(l: Ledger)
    requires LedgerOk(l) && !l.stale
    ensures Sealed(l.rows)
  {
    hide Sealed, TrueLeaves;
  }

  lemma RecordReplaces(l: Ledger, c: Content)
    requires Find(Seal(l).rows, c.id) < |Seal(l).rows| && Seal(l).tip == Tip(Seal(l).rows)
    ensures var s := Seal(l);
      RecordRow(l, c).0.rows == s.rows[Find(s.rows, c.id) := Row(c, Tip(s.rows), Linked(c, Tip(s.rows)))]
  {
    hide Seal, Find, Tip;
  }

  lemma RecordNotStale(l: Ledger, c: Content)
    ensures !RecordRow(l, c).0.stale
  {
  }

  // ---------- loading ----------

  /** A sealed ledger has some row hash that is not blank. */
  lemma SealedNotLinkless(rows: seq<Row>)
    requires rows != [] && Sealed(rows)
    ensures !Linkless(rows)
  {
    assert rows[|rows| - 1].chainHash == ChainOf(Contents(rows));
  }

  /** Editing the rows under a published head: load accepts the published rows
      themselves and, since both checks are skipped without rows, no rows at
      all. Nothing else is accepted. */
  lemma LoadExact(runId: string, rows: seq<Row>, head: Head, file: File)
    requires rows != [] && Sealed(rows)
    requires head.runId == runId && head.size == |rows| && head.root == Mth(Leaves(rows))
    requires file.head == Some(head)
    ensures LoadFile(runId, file, true).Success? <==> PutAll(file.rows) == rows || PutAll(file.rows) == []
  {
    hide ChainIssues, PutAll, Linkless, Mth;
    var loaded := PutAll(file.rows);
    NoIssuesIffSealed(loaded);
    if loaded != [] {
      NoIssuesIffSealed(rows);
      SealedNotLinkless(rows);
      if Mth(Leaves(loaded)) == head.root && |loaded| == |rows| {
        RootCommitsToLeaves(Leaves(loaded), Leaves(rows));
        SameLeavesLinkless(loaded, rows);
        if Sealed(loaded) {
          SealedLeavesDetermineRows(loaded, rows);
        }
      }
    }
  }

  /** What load answers. Without a readable file it goes by the log, whose rows it
      seals again, or starts empty; an unreadable file without a log is an error. A
      head that does not describe the rows is always an error; a broken chain only
      under verification, and only when some row hash is not blank. */
  ghost predicate LoadHolds(runId: string, canonical: Canonical, wal: Wal, verify: bool,
                            r: Result<Ledger, LedgerError>) {
    && (!canonical.Readable? && wal.None? ==>
          r == if canonical.Unreadable? then Failure(UnreadableFile)
               else Success(Ledger(runId, [], Blank, false, None, None)))
    && (!canonical.Readable? && wal.Some? ==>
          && r.Success? && r.value.runId == runId && r.value.head == None && r.value.signed == None
          && Sealed(r.value.rows) && r.value.tip == Tip(r.value.rows) && !r.value.stale
          && Contents(r.value.rows) == Contents(PutAll(Decoded(wal.value))))
    && (canonical.Readable? ==>
          var f, rows := canonical.file, PutAll(canonical.file.rows);
          var foreign := f.head.Some? && rows != [] && !(f.head.value.runId == runId && Describes(f.head, rows));
          var broken := verify && !Sealed(rows) && exists i :: 0 <= i < |rows| && rows[i].chainHash != Blank;
          && (r == Failure(HeadMismatch) <==> foreign)
          && (r == Failure(BrokenChain) <==> !foreign && broken)
          && (!foreign && !broken ==> r == Success(Ledger(runId, rows, Tip(rows), false, f.head, f.signed))))
  }

  lemma LoadEffects(runId: string, canonical: Canonical, wal: Wal, verify: bool)
    ensures LoadHolds(runId, canonical, wal, verify, Load(runId, canonical, wal, verify))
  {
    hide PutAll, Decoded, Resealed, ChainIssues, Mth, Sealed, Leaves;
    if canonical.Readable? {
      NoIssuesIffSealed(PutAll(canonical.file.rows));
    } else if wal.Some? {
      ResealedIsSealed(PutAll(Decoded(wal.value)));
    }
  }

  lemma SameLeavesLinkless(a: seq<Row>, b: seq<Row>)
    requires Leaves(a) == Leaves(b)
    ensures Linkless(a) <==> Linkless(b)
  {
    assert forall i :: 0 <= i < |a| ==> a[i].chainHash == Leaves(a)[i] == b[i].chainHash;
  }

  lemma SealedLeavesDetermineRows(a: seq<Row>, b: seq<Row>)
    requires Sealed(a) && Sealed(b) && Leaves(a) == Leaves(b)
    ensures a == b
  {
    hide Sealed, Chain;
    SealedLeaves(a);
    SealedLeaves(b);
    ChainInjective(Contents(a), Contents(b));
    SealedIsResealed(a);
    SealedIsResealed(b);
    ResealedByContents(a, b);
  }

  lemma ResealedByContents(a: seq<Row>, b: seq<Row>)
    ensures Contents(a) == Contents(b) ==> Resealed(a) == Resealed(b)
  {
  }

  /** Two accepted files that carry one head and at least one row each agree on
      every row, links included, if some row hash is not blank; the other case
      is BlankHeadAnchorsNothing. */
  lemma AcceptedFilesAgree(runId: string, a: File, b: File)
    requires a.head.Some? && a.head == b.head && PutAll(a.rows) != [] && PutAll(b.rows) != []
    ensures LoadFile(runId, a, true).Success? && LoadFile(runId, b, true).Success? && !Linkless(PutAll(a.rows)) ==>
      PutAll(a.rows) == PutAll(b.rows)
  {
    hide ChainIssues, PutAll, Linkless, Mth;
    var x, y := PutAll(a.rows), PutAll(b.rows);
    if LoadFile(runId, a, true).Success? && LoadFile(runId, b, true).Success? && !Linkless(x) {
      NoIssuesIffSealed(x);
      NoIssuesIffSealed(y);
      RootCommitsToLeaves(Leaves(x), Leaves(y));
      SameLeavesLinkless(x, y);
      SealedLeavesDetermineRows(x, y);
    }
  }

  /** A head over blank row hashes anchors nothing: the chain check is skipped,
      so a different first row is accepted in its place. */
  lemma BlankHeadAnchorsNothing(runId: string, a: File) returns (b: File)
    requires a.head.Some? && PutAll(a.rows) != [] && LoadFile(runId, a, true).Success?
    requires Linkless(PutAll(a.rows))
    ensures b.head == a.head && LoadFile(runId, b, true).Success? && PutAll(b.rows) != []
    ensures Contents(PutAll(b.rows)) != Contents(PutAll(a.rows))
  {
    hide ChainIssues, Mth, PutAll;
    var x := PutAll(a.rows);
    var c := x[0].content;
    var edited := c.(body := c.body + "x");
    var y := x[0 := x[0].(content := edited)];
    b := a.(rows := y);
    assert PutAll(b.rows) == y by {
      assert UniqueIds(y);
    }
    assert Leaves(y) == Leaves(x);
    SameLeavesLinkless(x, y);
    assert |edited.body| != |c.body|;
    assert Contents(y)[0] == edited && Contents(x)[0] == c;
  }

  /** Loading what was just persisted gives back the ledger itself: rows, tip,
      original head and signature. */
  lemma PersistLoadRoundTrip(w: World, now: string, key: SigningKey, verify: bool)
    requires Inv(w) && w.durable && Persist(w, now, key).1.None?
    ensures var v := Persist(w, now, key).0;
      && v.wal.None? && v.canonical.Readable?
      && (Seal(w.ledger).rows != [] ==> Load(v.ledger.runId, v.canonical, v.wal, verify) == Success(v.ledger))
  {
    hide Inv, Mth, Seal, LoadFile, LedgerOk;
    PersistOk(w, now, key);
    InvFile(Persist(w, now, key).0);
    InvFile(w);
    var v := Persist(w, now, key).0;
    LoadOwnFile(v.ledger.runId, v.canonical.file, verify);
    SealFields(w.ledger);
  }

  lemma InvFile(w: World)
    requires Inv(w)
    ensures LedgerOk(w.ledger)
    ensures w.canonical.Readable? ==> FileOk(w.ledger.runId, w.canonical.file)
  {
  }

  lemma {:induction false} DecodedTorn(lines: seq<Option<Row>>, k: nat, rest: seq<Option<Row>>)
    requires k <= |lines| && (rest == [] || rest[0].None?)
    requires forall i :: 0 <= i < |lines| ==> lines[i].Some?
    ensures |Decoded(lines[..k] + rest)| == k
    ensures forall i :: 0 <= i < k ==> Decoded(lines[..k] + rest)[i] == lines[i].value
  {
    if k == 0 {
      assert lines[..0] + rest == rest;
    } else {
      assert (lines[..k] + rest)[1..] == lines[1..][..k - 1] + rest;
      DecodedTorn(lines[1..], k - 1, rest);
    }
  }

  /** A crash before the first persist, the log cut anywhere: what comes back is
      sealed and holds the surviving rows, in order, as they were recorded. */
  lemma CrashRecovery(runId: string, ops: seq<Op>, k: nat, rest: seq<Option<Row>>)
    requires FreshIds(Start(runId, true), ops)
    requires var w := Run(Start(runId, true), ops); w.canonical.Missing? && k <= |Lines(w.wal)|
    requires rest == [] || rest[0].None?
    ensures var w := Run(Start(runId, true), ops);
      var lines := Lines(w.wal);
      var l := Recover(runId, lines[..k] + rest);
      && |lines| == |w.ledger.rows|
      && Load(runId, w.canonical, Some(lines[..k] + rest), true) == Success(l)
      && |l.rows| == k && Sealed(l.rows) && UniqueIds(l.rows)
      && forall i :: 0 <= i < k ==>
           lines[i].Some? && l.rows[i].content == lines[i].value.content && LineOf(lines[i], w.ledger.rows[i])
  {
    hide Run, FreshIds, Chain, Sealed, Covers;
    StartOk(runId, true);
    RunOk(Start(runId, true), ops);
    RunKeepsIdentity(Start(runId, true), ops);
    var w := Run(Start(runId, true), ops);
    var lines := Lines(w.wal);
    assert forall i :: 0 <= i < |lines| ==> LineOf(lines[i], w.ledger.rows[i]);
    DecodedTorn(lines, k, rest);
    var rows := Decoded(lines[..k] + rest);
    assert UniqueIds(rows);
    ResealedIsSealed(rows);
    var l := Recover(runId, lines[..k] + rest);
    forall i | 0 <= i < k ensures l.rows[i].content == lines[i].value.content {
      assert l.rows[i].content == Contents(l.rows)[i] == Contents(rows)[i];
    }
  }

  lemma {:induction false} RunKeepsIdentity(w: World, ops: seq<Op>)
    ensures Run(w, ops).durable == w.durable
    decreases |ops|
  {
    if ops != [] {
      RunKeepsIdentity(Step(w, ops[0]), ops[1..]);
    }
  }

  // ---------- citation bundles ----------

  /** The signature attached to bundles when the published head still describes
      the rows. */
  function AttachedSignature(l: Ledger, now: string): Option<SignedHead> {
    if l.head.Some? && SameCommitment(l.head.value, CurrentHead(l, now)) then l.signed else None
  }

  function Bundle(l: Ledger, id: string, now: string): Result<CitationProof<ChainHash>, LedgerError> {
    var i := Find(l.rows, id);
    if i == |l.rows| then Failure(UnknownRow)
    else Success(CitationProof(id, i, l.rows[i].chainHash, AuditPath(i, LeafHashes(Leaves(l.rows))),
                               HeadToPublish(l, now), AttachedSignature(l, now)))
  }

  ghost predicate SignedMatches(l: Ledger) {
    l.signed.Some? ==> l.head == Some(l.signed.value.head)
  }

  /** Every bundle verifies against its own head, and carries a signature of
      that very head if it carries one. */
  lemma BundleVerifies(l: Ledger, id: string, now: string)
    requires Bundle(l, id, now).Success?
    ensures CitationVerifies(Bundle(l, id, now).value)
    ensures SignedMatches(l) && Bundle(l, id, now).value.signed.Some? ==>
      Bundle(l, id, now).value.signed.value.head == Bundle(l, id, now).value.head
  {
    hide Mth, AuditPath, LeafHashes, Leaves;
    var p, leaves := Bundle(l, id, now).value, Leaves(l.rows);
    InclusionExact(leaves, p.leafData, p.leafIndex, Sent(p.auditPath));
  }

  /** An attached signature is the ledger's, over the bundle's head exactly when
      the ledger's head and signature match. */
  lemma BundleSigned(l: Ledger, id: string, now: string)
    requires Bundle(l, id, now).Success?
    ensures var p := Bundle(l, id, now).value;
      p.signed.Some? ==> p.signed == l.signed && (p.signed.value.head == p.head <==> SignedMatches(l))
  {
    hide Mth, AuditPath, LeafHashes, Leaves;
  }

  /** To someone who pinned a key, a bundle passes exactly when it carries a
      signature by that key and the ledger's head and signature match. */
  lemma SignedBundlePassesIff(l: Ledger, id: string, now: string, key: string)
    requires Bundle(l, id, now).Success? && Genuine(l.signed) && key != ""
    ensures var p := Bundle(l, id, now).value;
      SignedCitationVerifies(Transmitted(p), key)
      <==> p.signed.Some? && p.signed.value.signer == key && SignedMatches(l)
  {
    hide Mth, AuditPath, LeafHashes, Leaves, InclusionAccepts, Bundle;
    var p := Bundle(l, id, now).value;
    BundleVerifies(l, id, now);
    BundleSigned(l, id, now);
    assert p.signed.Some? ==>
      (SentHead(p.signed.value.head) == SentHead(p.head) <==> p.signed.value.head == p.head);
  }

  /** Signed with key k and written: head, signature, rows and file agree. */
  ghost predicate Attested(w: World, k: string) {
    && w.durable && Inv(w) && w.ledger.rows != [] && !w.ledger.stale
    && w.ledger.head.Some? && w.ledger.head.value.size == |w.ledger.rows|
    && w.ledger.head.value.root == Mth(Leaves(w.ledger.rows))
    && w.ledger.signed == Some(SignedTreeHead(w.ledger.head.value, k, SignatureOf(w.ledger.head.value, k)))
    && w.canonical == Readable(File(w.ledger.runId, w.ledger.rows, w.ledger.head, w.ledger.signed))
  }

  lemma PersistAttests(w: World, now: string, k: string)
    requires Inv(w) && w.durable && w.ledger.rows != []
    ensures Attested(Persist(w, now, Key(k)).0, k)
  {
    hide Inv, Mth, Seal;
    PersistOk(w, now, Key(k));
    SealFields(w.ledger);
  }

  /** Nothing that leaves the rows and the key alone undoes it, not even a failed
      persist. */
  lemma StaysAttested(w: World, op: Op, k: string)
    requires Attested(w, k) && !op.DoRecord? && (op.DoPersist? && op.key.Key? ==> op.key.id == k)
    ensures Attested(Step(w, op), k) && Step(w, op).ledger.rows == w.ledger.rows
  {
    hide Inv, Mth, Covers, Sealed;
    StepOk(w, op);
    if op.DoRestart? {
      AttestedFile(w, k);
      LoadOwnFile(w.ledger.runId, w.canonical.file, true);
    }
    if op.DoAnnotate? {
      RefusedUnderHead(w.ledger, op.id, op.updates);
    }
  }

  lemma AttestedFile(w: World, k: string)
    requires Attested(w, k)
    ensures FileOk(w.ledger.runId, w.canonical.file) && w.ledger.tip == Tip(w.ledger.rows)
  {
  }

  lemma RefusedUnderHead(l: Ledger, id: string, updates: map<string, string>)
    requires l.head.Some? && l.head.value.size == |l.rows|
    ensures Annotate(l, id, updates).Failure?
  {
  }

  lemma {:induction false} RunStaysAttested(w: World, ops: seq<Op>, k: string)
    requires Attested(w, k)
    requires forall i :: 0 <= i < |ops| ==>
      !ops[i].DoRecord? && (ops[i].DoPersist? && ops[i].key.Key? ==> ops[i].key.id == k)
    ensures Attested(Run(w, ops), k) && Run(w, ops).ledger.rows == w.ledger.rows
    decreases |ops|
  {
    hide Attested, Step;
    if ops != [] {
      StaysAttested(w, ops[0], k);
      RunStaysAttested(Step(w, ops[0]), ops[1..], k);
    }
  }

  lemma AttestedBundlePasses(w: World, k: string, id: string, now: string)
    requires Attested(w, k) && k != "" && Find(w.ledger.rows, id) < |w.ledger.rows|
    ensures Bundle(w.ledger, id, now).Success?
    ensures SignedCitationVerifies(Transmitted(Bundle(w.ledger, id, now).value), k)
  {
    hide Inv, Mth, Find, Leaves, LeafHashes, AuditPath;
    SignedBundlePassesIff(w.ledger, id, now, k);
  }

  /** What signing is for: once the ledger was persisted with key k, every recorded
      row can be cited to anyone who pinned k, and stays so over restarts, refused
      annotations, and persists without a key, with a malformed one or with k, as
      long as nothing is recorded and no other key signs. */
  lemma SignedBundlesPass(runId: string, before: seq<Op>, at: string, k: string, after: seq<Op>,
                          id: string, now: string)
    requires FreshIds(Start(runId, true), before) && k != ""
    requires forall i :: 0 <= i < |after| ==>
      !after[i].DoRecord? && (after[i].DoPersist? && after[i].key.Key? ==> after[i].key.id == k)
    requires var rows := Run(Start(runId, true), before).ledger.rows; Find(rows, id) < |rows|
    ensures var l := Run(Start(runId, true), before + [DoPersist(at, Key(k))] + after).ledger;
      && Bundle(l, id, now).Success? && Bundle(l, id, now).value.ledgerId == id
      && SignedCitationVerifies(Transmitted(Bundle(l, id, now).value), k)
  {
    hide Run, Inv, Attested, FreshIds, Find, Persist, Seal, Mth, Transmitted, SignedCitationVerifies;
    var start, sign := Start(runId, true), DoPersist(at, Key(k));
    StartOk(runId, true);
    RunOk(start, before);
    RunKeepsIdentity(start, before);
    RunAppend(start, before + [sign], after);
    RunAppend(start, before, [sign]);
    var w := Run(start, before);
    RunOne(w, sign);
    PersistAttests(w, at, k);
    SealFields(w.ledger);
    PersistedRows(w, at, Key(k), id);
    RunStaysAttested(Step(w, sign), after, k);
    AttestedBundlePasses(Run(Step(w, sign), after), k, id, now);
  }

  lemma RunOne(w: World, op: Op)
    ensures Run(w, [op]) == Step(w, op)
  {
    hide Step;
    assert [op][1..] == [];
  }

  lemma PersistedRows(w: World, now: string, key: SigningKey, id: string)
    requires Inv(w)
    ensures var l := Persist(w, now, key).0.ledger;
      |l.rows| == |w.ledger.rows| && Find(l.rows, id) == Find(w.ledger.rows, id)
  {
    hide Inv, Mth, Find, Leaves, Covers, Sealed, Chain;
    InvFile(w);
    SealOk(w.ledger);
    FindByContents(Seal(w.ledger).rows, w.ledger.rows, id);
  }

  /** Persisting keeps the held signature in step with the held head, except in
      one case: the key in the environment is malformed, a signature is held,
      and the rows have moved on from its head. */
  lemma PersistKeepsSignatureIff(w: World, now: string, key: SigningKey)
    requires w.durable && SignedMatches(w.ledger)
    ensures var l := Seal(w.ledger);
      SignedMatches(Persist(w, now, key).0.ledger) <==>
        !(key.Malformed? && l.rows != [] && l.signed.Some? && !SameCommitment(l.head.value, CurrentHead(l, now)))
  {
    SealFields(w.ledger);
  }

  lemma {:induction false} SignatureStaysAttached(w: World, ops: seq<Op>)
    requires Inv(w) && FreshIds(w, ops) && SignedMatches(w.ledger)
    requires forall i :: 0 <= i < |ops| && ops[i].DoPersist? ==> !ops[i].key.Malformed?
    ensures SignedMatches(Run(w, ops).ledger)
    decreases |ops|
  {
    hide Inv, Persist, Annotate, RecordRow, Load, Seal;
    if ops != [] {
      StepOk(w, ops[0]);
      SignatureStep(w, ops[0]);
      SignatureStaysAttached(Step(w, ops[0]), ops[1..]);
    }
  }

  lemma SignatureStep(w: World, op: Op)
    requires Inv(w) && SignedMatches(w.ledger) && !(op.DoPersist? && op.key.Malformed?)
    ensures SignedMatches(Step(w, op).ledger)
  {
    if op.DoRestart? && w.durable && w.canonical.Readable? {
      LoadOwnFile(w.ledger.runId, w.canonical.file, true);
    }
  }

  /** The exceptional case is reachable: two rows, two persists. */
  lemma MalformedKeyDetachesSignature(runId: string, a: Content, b: Content)
    requires a.id != b.id
    ensures var ops := [DoRecord(a), DoPersist("t1", Key("k")), DoRecord(b), DoPersist("t2", Malformed)];
      FreshIds(Start(runId, true), ops) && !SignedMatches(Run(Start(runId, true), ops).ledger)
  {
    hide Mth;
    var ops := [DoRecord(a), DoPersist("t1", Key("k")), DoRecord(b), DoPersist("t2", Malformed)];
    var w1 := Step(Start(runId, true), ops[0]);
    var w2 := Step(w1, ops[1]);
    var w3 := Step(w2, ops[2]);
    var w4 := Step(w3, ops[3]);
    assert w1.ledger.rows == [Row(a, Blank, Linked(a, Blank))];
    assert w2.ledger.signed.Some? && w2.ledger.head == Some(w2.ledger.signed.value.head);
    assert w2.ledger.head.value.size == 1;
    assert |w3.ledger.rows| == 2 && w4.ledger.head.value.size == 2 && w4.ledger.signed == w2.ledger.signed;
    assert Find(w2.ledger.rows, b.id) == 1;
    FourSteps(Start(runId, true), ops);
  }

  lemma FourSteps(w: World, ops: seq<Op>)
    requires |ops| == 4
    ensures var w1 := Step(w, ops[0]); var w2 := Step(w1, ops[1]); var w3 := Step(w2, ops[2]);
      && Run(w, ops) == Step(w3, ops[3])
      && (FreshIds(w, ops) <==> Fresh(w, ops[0]) && Fresh(w1, ops[1]) && Fresh(w2, ops[2]) && Fresh(w3, ops[3]))
  {
    hide Step, Fresh;
    var w1 := Step(w, ops[0]);
    var w2 := Step(w1, ops[1]);
    var w3 := Step(w2, ops[2]);
    assert Run(w, ops) == Run(w1, ops[1..]) && Run(w1, ops[1..]) == Run(w2, ops[1..][1..]);
    assert ops[1..][1..] == ops[2..] && ops[2..][1..] == ops[3..] && ops[3..][1..] == [];
    assert Run(w2, ops[2..]) == Run(w3, ops[3..]) == Step(w3, ops[3]);
    assert FreshIds(w3, ops[3..]) <==> Fresh(w3, ops[3]);
    assert FreshIds(w2, ops[2..]) <==> Fresh(w2, ops[2]) && FreshIds(w3, ops[3..]);
    assert FreshIds(w1, ops[1..]) <==> Fresh(w1, ops[1]) && FreshIds(w2, ops[2..]);
  }
}
