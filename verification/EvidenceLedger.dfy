/** The evidence ledger object. Its dictionary of rows is an insertion-ordered
    sequence, its two files are fields, and every method is one step of
    LedgerHistory. */
module EvidenceLedgers {
  import opened Wrappers
  import opened MerkleTree
  import opened MerkleVerifiers
  import opened MerkleLogs
  import opened LedgerModel
  import opened LedgerHistory
  import opened LedgerGuarantees

  function Ids(rows: seq<Row>): (ids: seq<string>)
    ensures |ids| == |rows| && forall i :: 0 <= i < |rows| ==> ids[i] == rows[i].content.id
  {
    seq(|rows|, i requires 0 <= i < |rows| => rows[i].content.id)
  }

  class EvidenceLedger {
    const runId: string
    const durable: bool
    var items: seq<Row>
    var chainTip: ChainHash
    var chainStale: bool
    var loadedHead: Option<Head>
    var loadedSigned: Option<SignedHead>
    var canonical: Canonical
    var wal: Wal
    ghost var published: seq<Head>

    ghost function State(): Ledger
      reads this
    {
      Ledger(runId, items, chainTip, chainStale, loadedHead, loadedSigned)
    }

    ghost function World(): World
      reads this
    {
      LedgerHistory.World(State(), durable, canonical, wal, published)
    }

    constructor (runId: string, durable: bool)
      ensures World() == Start(runId, durable) && Inv(World())
    {
      this.runId, this.durable := runId, durable;
      items, chainTip, chainStale := [], Blank, false;
      loadedHead, loadedSigned := None, None;
      canonical, wal, published := Missing, None, [];
      new;
      StartOk(runId, durable);
    }

    /** Relink the whole chain once; a no-op unless annotate ran since. */
    method SealChain()
      modifies this
      ensures World() == Step(old(World()), DoSeal)
    {
      if !chainStale {
        return;
      }
      hide Resealed, ChainOf, Contents;
      ghost var rows := items;
      var parent := Blank;
      var i := 0;
      SealingStep(rows, 0);
      while i < |items|
        invariant 0 <= i <= |items| == |rows|
        invariant forall j :: 0 <= j < i ==> items[j] == Resealed(rows)[j]
        invariant forall j :: i <= j < |rows| ==> items[j] == rows[j]
        invariant parent == ChainOf(Contents(rows)[..i])
        invariant World() == old(World()).(ledger := old(State()).(rows := items))
      {
        SealingStep(rows, i);
        var item := items[i];
        var link := Linked(item.content, parent);
        items := items[i := Row(item.content, parent, link)];
        parent := link;
        i := i + 1;
      }
      assert items == Resealed(rows);
      TipIsChain(rows);
      chainTip := parent;
      chainStale := false;
    }

    /** What the i-th round of the sealing loop has to write. */
    lemma SealingStep(rows: seq<Row>, i: nat)
      requires i <= |rows|
      ensures ChainOf(Contents(rows)[..0]) == Blank
      ensures i < |rows| ==>
        var link := Linked(rows[i].content, ChainOf(Contents(rows)[..i]));
        && Resealed(rows)[i] == Row(rows[i].content, ChainOf(Contents(rows)[..i]), link)
        && ChainOf(Contents(rows)[..i + 1]) == link
    {
      if i < |rows| {
        var cs := Contents(rows)[..i + 1];
        assert cs[..i] == Contents(rows)[..i] && cs[i] == rows[i].content;
        assert Resealed(rows)[i] == SealedRow(cs);
      }
    }

    lemma TipIsChain(rows: seq<Row>)
      ensures Tip(Resealed(rows)) == ChainOf(Contents(rows)[..|rows|])
    {
      ResealedIsSealed(rows);
      SealedTip(Resealed(rows));
      assert Contents(rows)[..|rows|] == Contents(rows);
    }

    method Record(content: Content) returns (ledgerId: string)
      modifies this
      ensures World() == Step(old(World()), DoRecord(content)) && ledgerId == content.id
      ensures old(Inv(World())) && content.id !in Ids(old(items)) ==>
        Inv(World()) && Contents(items) == Contents(old(items)) + [content]
      ensures var i := Find(old(items), content.id);
        && i < |items| && items[i].content == content && items[i].chainHash == chainTip && !chainStale
        && (i == |old(items)| ==> Contents(items) == Contents(old(items)) + [content])
        && (i < |old(items)| ==> Contents(items) == Contents(old(items))[i := content])
        && wal == (if durable then Some(Lines(old(wal)) + [Some(items[i])]) else old(wal))
      ensures canonical == old(canonical) && published == old(published)
      ensures loadedHead == old(loadedHead) && loadedSigned == old(loadedSigned)
    {
      ghost var w := World();
      RecordPuts(State(), content);
      AbsentId(items, content.id);
      if Inv(w) && content.id !in Ids(items) {
        RecordOk(w, content);
        RecordLedgerOk(w.ledger, content);
      }
      SealChain();
      var item := Row(content, chainTip, Linked(content, chainTip));
      chainTip := item.chainHash;
      items := Put(items, item);
      if durable {
        wal := Some(Lines(wal) + [Some(item)]);
      }
      ledgerId := content.id;
    }

    method Annotate(ledgerId: string, updates: map<string, string>) returns (error: Option<LedgerError>)
      modifies this
      ensures World() == Step(old(World()), DoAnnotate(ledgerId, updates))
      ensures old(Inv(World())) ==> Inv(World())
      ensures error == Some(UnknownRow) <==> ledgerId !in Ids(old(items))
      ensures error == Some(CoveredByHead) <==>
        ledgerId in Ids(old(items)) && old(loadedHead).Some?
        && Find(old(items), ledgerId) < old(loadedHead).value.size
      ensures error.Some? ==> World() == old(World()) && error.value in {UnknownRow, CoveredByHead}
      ensures error.None? ==> var i := Find(old(items), ledgerId);
        && i < |old(items)| && items == old(items)[i := items[i]] && chainStale
        && items[i].content.id == ledgerId && items[i].content.body == old(items)[i].content.body
      ensures error.None? ==> var i := Find(old(items), ledgerId);
        var was, is_ := old(items)[i].content.metadata, items[i].content.metadata;
        && (forall k :: k in updates ==> k in is_ && is_[k] == updates[k])
        && (forall k :: k in was && k !in updates ==> k in is_ && is_[k] == was[k])
        && (forall k :: k in is_ ==> k in was || k in updates)
      ensures canonical == old(canonical) && wal == old(wal) && published == old(published)
      ensures loadedHead == old(loadedHead) && loadedSigned == old(loadedSigned)
    {
      ghost var w := World();
      if Inv(w) {
        AnnotateOk(w, ledgerId, updates);
      }
      var index := Find(items, ledgerId);
      if index == |items| {
        return Some(UnknownRow);
      }
      assert Ids(items)[index] == ledgerId;
      if loadedHead.Some? {
        if index < loadedHead.value.size {
          return Some(CoveredByHead);
        }
      }
      items := items[index := Annotated(items[index], updates)];
      chainStale := true;
      return None;
    }

    /** Walk the chain; the report is empty exactly when every stored link is
        the one the contents call for. */
    method VerifyChain() returns (checked: nat, issues: seq<ChainIssue>)
      modifies this
      ensures World() == Step(old(World()), DoSeal)
      ensures checked == |items| && issues == ChainIssues(items)
      ensures issues == [] <==> Sealed(items)
      ensures forall e :: e in issues <==> exists i :: 0 <= i < |items| && Misfit(items, i, e)
      ensures old(Inv(World())) ==> issues == []
    {
      hide Seal, Resealed, Sealed, Chain, Covers;
      ghost var l := State();
      SealChain();
      checked, issues := 0, [];
      var parent := Blank;
      while checked < |items|
        invariant checked <= |items|
        invariant issues == ChainIssues(items[..checked]) && parent == Tip(items[..checked])
      {
        var item := items[checked];
        ghost var walked := items[..checked + 1];
        assert walked[..checked] == items[..checked] && walked[checked] == item;
        if item.parentHash != parent {
          issues := issues + [ParentMismatch(item.content.id)];
        } else if item.chainHash != Linked(item.content, parent) {
          issues := issues + [HashMismatch(item.content.id)];
        }
        parent := item.chainHash;
        checked := checked + 1;
      }
      assert items[..checked] == items;
      NoIssuesIffSealed(items);
      forall e ensures e in issues <==> exists i :: 0 <= i < |items| && Misfit(items, i, e) {
        IssuesExact(items, e);
      }
      if LedgerOk(l) {
        SealOk(l);
      }
    }

    method TransparencyLog() returns (log: MerkleLog<ChainHash>)
      modifies this
      ensures World() == Step(old(World()), DoSeal)
      ensures fresh(log) && log.runId == runId && log.leaves == Leaves(items)
    {
      SealChain();
      log := new MerkleLog(runId, Leaves(items));
    }

    method Persist(now: string, key: SigningKey) returns (error: Option<LedgerError>)
      modifies this
      ensures (World(), error) == LedgerHistory.Persist(old(World()), now, key)
      ensures old(Inv(World())) ==> Inv(World())
      ensures PersistHolds(old(World()), now, key, World(), error)
    {
      hide Inv, Seal, Mth, Leaves, PersistHolds, HeadToPublish, SignatureFor, SameCommitment;
      ghost var w := World();
      SealFields(State());
      PersistEffects(w, now, key);
      if Inv(w) {
        PersistOk(w, now, key);
      }
      if !durable {
        return None;
      }
      SealChain();
      var head, signed := None, None;
      if items != [] {
        var log := TransparencyLog();
        var current := log.Head(now);
        ghost var l := State();
        assert l == Seal(w.ledger) && World() == w.(ledger := l);
        HeadIs(l, now);
        if loadedHead.Some? && SameCommitment(loadedHead.value, current) {
          head := loadedHead;
        } else {
          head := Some(current);
          loadedHead := head;
        }
        SignatureIs(l, head.value, key);
        if key.Malformed? {
          return Some(BadSigningKey);
        }
        if key.Key? {
          signed := Some(SignedTreeHead(head.value, key.id, SignatureOf(head.value, key.id)));
        } else if loadedSigned.Some? && loadedSigned.value.head == head.value {
          signed := loadedSigned;
        }
        loadedSigned := signed;
        published := published + [head.value];
      }
      canonical := Readable(File(runId, items, head, signed));
      wal := None;
      return None;
    }

    /** Citation proofs bound to the published commitment while it describes
        the rows, and to a fresh unsigned head otherwise. */
    method CitationProofBundles(ledgerIds: seq<string>, now: string)
      returns (r: Result<seq<CitationProof<ChainHash>>, LedgerError>)
      modifies this
      ensures World() == Step(old(World()), DoSeal)
      ensures r.Failure? <==> exists i :: 0 <= i < |ledgerIds| && ledgerIds[i] !in Ids(old(items))
      ensures r.Success? ==> |r.value| == |ledgerIds|
      ensures r.Success? ==> forall i :: 0 <= i < |ledgerIds| ==>
        Bundle(State(), ledgerIds[i], now) == Success(r.value[i]) && CitationVerifies(r.value[i])
      ensures r.Success? ==> forall i :: 0 <= i < |ledgerIds| ==>
        && ForFirstRow(items, ledgerIds[i], r.value[i])
        && if Describes(old(loadedHead), items) then BoundTo(r.value[i], old(loadedHead).value, old(loadedSigned))
           else BoundTo(r.value[i], TreeHead(runId, |items|, Mth(Leaves(items)), now), None)
      ensures r.Success? && SignedMatches(old(State())) ==>
        forall i :: 0 <= i < |ledgerIds| && r.value[i].signed.Some? ==>
          r.value[i].signed.value.head == r.value[i].head
    {
      hide Mth, Bundle, InclusionHolds, Seal, CitationVerifies, Find, Leaves, Ids, ForFirstRow, Describes, BoundTo;
      SealFields(State());
      SameIds(State());
      var log := TransparencyLog();
      var head := log.Head(now);
      var signed := None;
      if loadedHead.Some? && SameCommitment(loadedHead.value, head) {
        head := loadedHead.value;
        signed := loadedSigned;
      }
      ghost var l := State();
      assert head == HeadToPublish(l, now) && signed == AttachedSignature(l, now);
      var bundles := [];
      var i := 0;
      while i < |ledgerIds|
        modifies {}
        invariant 0 <= i <= |ledgerIds| && |bundles| == i
        invariant forall j :: 0 <= j < i ==> ledgerIds[j] in Ids(items)
        invariant forall j :: 0 <= j < i ==> Bundle(l, ledgerIds[j], now) == Success(bundles[j])
      {
        var proof := log.ProveCitation(Ids(items), ledgerIds[i], now);
        if proof.Failure? {
          return Failure(UnknownRow);
        }
        BundleFromProof(l, ledgerIds[i], now, proof.value);
        var bundle := proof.value.(head := head, signed := signed);
        bundles := bundles + [bundle];
        i := i + 1;
      }
      BundlesVerify(l, ledgerIds, now, bundles);
      return Success(bundles);
    }

    /** Forget the object and load the files again, as a new process does. */
    method Restart() returns (error: Option<LedgerError>)
      requires durable
      modifies this
      ensures World() == Step(old(World()), DoRestart)
      ensures old(Inv(World())) ==> Inv(World()) && error.None?
      ensures error.Some? ==> World() == old(World())
    {
      hide LoadHolds, Load, Inv;
      ghost var w := World();
      LoadKeepsRun(runId, canonical, wal, true);
      if Inv(w) {
        RestartOk(w);
        OwnFilesLoad(w);
      }
      var loaded := LoadFrom(runId, canonical, wal, true);
      if loaded.Failure? {
        return Some(loaded.error);
      }
      var l := loaded.value;
      items, chainTip, chainStale := l.rows, l.tip, l.stale;
      loadedHead, loadedSigned := l.head, l.signed;
      return None;
    }

    /** Rebuild the dictionary from the rows of a file. */
    static method InsertAll(rows: seq<Row>) returns (items: seq<Row>)
      ensures items == PutAll(rows)
    {
      hide PutAll, Put;
      items := [];
      var i := 0;
      PutAllStep(rows, 0);
      while i < |rows|
        invariant 0 <= i <= |rows| && items == PutAll(rows[..i])
      {
        PutAllStep(rows, i);
        items := Put(items, rows[i]);
        i := i + 1;
      }
      assert rows[..i] == rows;
    }

    /** Rebuild it from log lines, up to the first torn one. */
    static method Replay(lines: seq<Option<Row>>) returns (items: seq<Row>)
      ensures items == PutAll(Decoded(lines))
    {
      hide PutAll, Put, Decoded;
      ghost var whole := Decoded(lines);
      items := [];
      var i := 0;
      PutAllStep(whole, 0);
      while i < |lines|
        invariant 0 <= i <= |lines| && i <= |whole|
        invariant items == PutAll(whole[..i]) && Decoded(lines[i..]) == whole[i..]
      {
        DecodedStep(lines, i);
        if lines[i].None? {
          break;
        }
        assert whole[i..] != [] && whole[i] == whole[i..][0] && whole[i + 1..] == whole[i..][1..];
        PutAllStep(whole, i);
        items := Put(items, lines[i].value);
        i := i + 1;
      }
      if i == |lines| {
        DecodedStep(lines, i);
      }
      assert whole[i..] == [] && whole[..i] == whole;
    }

    /** Load a persisted ledger, or replay the write-ahead log without one. */
    static method LoadFrom(runId: string, canonical: Canonical, wal: Wal, verifyIntegrity: bool)
      returns (r: Result<Ledger, LedgerError>)
      ensures r == Load(runId, canonical, wal, verifyIntegrity)
      ensures LoadHolds(runId, canonical, wal, verifyIntegrity, r)
    {
      hide PutAll, Decoded, Resealed, ChainIssues, Linkless, Mth, LoadHolds;
      LoadEffects(runId, canonical, wal, verifyIntegrity);
      if canonical.Unreadable? && wal.None? {
        return Failure(UnreadableFile);
      }
      if !canonical.Readable? {
        if wal.None? {
          return Success(EmptyLedger(runId));
        }
        var replayed := Replay(wal.value);
        var sealed := Resealed(replayed);
        return Success(Ledger(runId, sealed, Tip(sealed), false, None, None));
      }
      var file := canonical.file;
      var items := InsertAll(file.rows);
      if file.head.Some? && items != [] {
        var log := new MerkleLog(runId, Leaves(items));
        var recomputed := log.Head("");
        if file.head.value.runId != runId || file.head.value.size != recomputed.size
           || file.head.value.root != recomputed.root {
          return Failure(HeadMismatch);
        }
      }
      if verifyIntegrity && !Linkless(items) && ChainIssues(items) != [] {
        return Failure(BrokenChain);
      }
      return Success(Ledger(runId, items, Tip(items), false, file.head, file.signed));
    }
  }

  /** The proof is for the first row with the id. */
  ghost predicate ForFirstRow(rows: seq<Row>, id: string, p: CitationProof<ChainHash>) {
    && p.ledgerId == id && p.leafIndex < |rows| && p.leafData == rows[p.leafIndex].chainHash
    && Ids(rows)[p.leafIndex] == id && id !in Ids(rows)[..p.leafIndex]
  }

  /** It carries this head and this signed head. */
  ghost predicate BoundTo(p: CitationProof<ChainHash>, head: Head, signed: Option<SignedHead>) {
    p.head == head && p.signed == signed
  }

  lemma BundleFields(l: Ledger, id: string, now: string)
    requires Bundle(l, id, now).Success?
    ensures var p := Bundle(l, id, now).value;
      && ForFirstRow(l.rows, id, p)
      && if Describes(l.head, l.rows) then BoundTo(p, l.head.value, l.signed)
         else BoundTo(p, TreeHead(l.runId, |l.rows|, Mth(Leaves(l.rows)), now), None)
  {
    hide Mth, Leaves, LeafHashes, AuditPath;
  }

  /** What persist does, field by field. Without a directory nothing; otherwise the
      rows are sealed, the published head stays if it describes them and a new one
      takes its place if not, a key signs it, no key keeps a signature of it, and
      file and ledger agree. A malformed key stops all this behind the head. */
  ghost predicate PersistHolds(w: World, now: string, key: SigningKey, v: World, error: Option<LedgerError>) {
    var old_, new_ := w.ledger, v.ledger;
    && v.durable == w.durable && new_.runId == old_.runId
    && (error == Some(BadSigningKey) <==> w.durable && old_.rows != [] && key.Malformed?)
    && (error.None? || error == Some(BadSigningKey))
    && (!w.durable ==> v == w)
    && (w.durable ==> Contents(new_.rows) == Contents(old_.rows) && !new_.stale)
    && (w.durable && old_.rows == [] ==>
          new_.head == old_.head && new_.signed == old_.signed && v.published == w.published
          && v.canonical == Readable(File(old_.runId, [], None, None)) && v.wal == None)
    && (w.durable && old_.rows != [] ==>
          && (Describes(old_.head, new_.rows) ==> new_.head == old_.head)
          && (!Describes(old_.head, new_.rows) ==>
                new_.head == Some(TreeHead(old_.runId, |new_.rows|, Mth(Leaves(new_.rows)), now)))
          && (key.Malformed? ==>
                new_.signed == old_.signed && v.canonical == w.canonical && v.wal == w.wal
                && v.published == w.published)
          && (!key.Malformed? ==>
                v.canonical == Readable(File(old_.runId, new_.rows, new_.head, new_.signed)) && v.wal == None
                && v.published == w.published + [new_.head.value])
          && (key.Key? ==>
                new_.signed
                == Some(SignedTreeHead(new_.head.value, key.id, SignatureOf(new_.head.value, key.id))))
          && (key.Unset? && old_.signed.Some? && old_.signed.value.head == new_.head.value ==>
                new_.signed == old_.signed)
          && (key.Unset? && !(old_.signed.Some? && old_.signed.value.head == new_.head.value) ==>
                new_.signed == None))
  }

  lemma PersistEffects(w: World, now: string, key: SigningKey)
    ensures var (v, error) := LedgerHistory.Persist(w, now, key); PersistHolds(w, now, key, v, error)
  {
    hide Mth, Leaves, Resealed;
    SealFields(w.ledger);
    assert Contents(Seal(w.ledger).rows) == Contents(w.ledger.rows);
  }

  lemma LoadKeepsRun(runId: string, canonical: Canonical, wal: Wal, verify: bool)
    ensures Load(runId, canonical, wal, verify).Success? ==> Load(runId, canonical, wal, verify).value.runId == runId
  {
    hide Mth, PutAll, Decoded, Resealed, ChainIssues;
  }

  lemma OwnFilesLoad(w: World)
    requires Inv(w) && w.durable
    ensures Load(w.ledger.runId, w.canonical, w.wal, true).Success?
  {
    hide LoadFile, FileOk, LedgerOk;
    if w.canonical.Readable? {
      LoadOwnFile(w.ledger.runId, w.canonical.file, true);
    }
  }

  lemma HeadIs(l: Ledger, now: string)
    ensures var current := TreeHead(l.runId, |l.rows|, Mth(Leaves(l.rows)), now);
      HeadToPublish(l, now)
      == if l.head.Some? && SameCommitment(l.head.value, current) then l.head.value else current
  {
  }

  lemma SignatureIs(l: Ledger, head: Head, key: SigningKey)
    ensures !key.Malformed? ==>
      SignatureFor(l, head, key)
      == if key.Key? then Some(SignedTreeHead(head, key.id, SignatureOf(head, key.id)))
         else if l.signed.Some? && l.signed.value.head == head then l.signed else None
  {
  }

  lemma RecordPuts(l: Ledger, c: Content)
    ensures var (l', row) := RecordRow(l, c);
      var i := Find(l.rows, c.id);
      && i < |l'.rows| && l'.rows[i] == row && !l'.stale && row.content == c && row.chainHash == l'.tip
      && (i == |l.rows| ==> Contents(l'.rows) == Contents(l.rows) + [c])
      && (i < |l.rows| ==> Contents(l'.rows) == Contents(l.rows)[i := c])
      && l'.head == l.head && l'.signed == l.signed
  {
    hide Resealed, Find;
    assert Contents(Seal(l).rows) == Contents(l.rows);
    FindByContents(Seal(l).rows, l.rows, c.id);
  }

  lemma PutAllStep(rows: seq<Row>, i: nat)
    requires i <= |rows|
    ensures i == 0 ==> PutAll(rows[..i]) == []
    ensures i < |rows| ==> PutAll(rows[..i + 1]) == Put(PutAll(rows[..i]), rows[i])
  {
    if i < |rows| {
      assert rows[..i + 1][..i] == rows[..i];
    }
  }

  lemma DecodedStep(lines: seq<Option<Row>>, i: nat)
    requires i <= |lines|
    ensures i == |lines| || lines[i].None? ==> Decoded(lines[i..]) == []
    ensures i < |lines| && lines[i].Some? ==>
      Decoded(lines[i..]) != [] && Decoded(lines[i..])[0] == lines[i].value
      && Decoded(lines[i..])[1..] == Decoded(lines[i + 1..])
  {
    if i < |lines| {
      assert lines[i..][1..] == lines[i + 1..];
    }
  }

  lemma SameIds(l: Ledger)
    ensures Ids(Seal(l).rows) == Ids(l.rows)
  {
    var s := Seal(l).rows;
    assert Contents(s) == Contents(l.rows);
    forall i | 0 <= i < |l.rows| ensures s[i].content.id == l.rows[i].content.id {
      assert s[i].content == Contents(s)[i] == l.rows[i].content;
    }
  }

  lemma FirstIndexIsFind(rows: seq<Row>, id: string, i: nat)
    requires i < |rows| && Ids(rows)[i] == id && id !in Ids(rows)[..i]
    ensures Find(rows, id) == i
  {
    assert forall k :: 0 <= k < i ==> Ids(rows)[..i][k] == rows[k].content.id;
  }

  /** The log's citation proof, rebound to the published head. */
  lemma BundleFromProof(l: Ledger, id: string, now: string, p: CitationProof<ChainHash>)
    requires p.leafIndex < |l.rows| && Ids(l.rows)[p.leafIndex] == id && id !in Ids(l.rows)[..p.leafIndex]
    requires p.ledgerId == id && InclusionHolds(Leaves(l.rows), p.leafData, p.leafIndex, Sent(p.auditPath))
    ensures Bundle(l, id, now)
         == Success(p.(head := HeadToPublish(l, now), signed := AttachedSignature(l, now)))
  {
    hide AuditPath, LeafHashes, Sent;
    FirstIndexIsFind(l.rows, id, p.leafIndex);
    SentInjective(p.auditPath, AuditPath(p.leafIndex, LeafHashes(Leaves(l.rows))));
  }

  lemma BundlesVerify(l: Ledger, ids: seq<string>, now: string, bundles: seq<CitationProof<ChainHash>>)
    requires |ids| == |bundles|
    requires forall i :: 0 <= i < |ids| ==> Bundle(l, ids[i], now) == Success(bundles[i])
    ensures forall i :: 0 <= i < |ids| ==> CitationVerifies(bundles[i])
    ensures SignedMatches(l) ==>
      forall i :: 0 <= i < |ids| && bundles[i].signed.Some? ==> bundles[i].signed.value.head == bundles[i].head
    ensures forall i :: 0 <= i < |ids| ==>
      && ForFirstRow(l.rows, ids[i], bundles[i])
      && if Describes(l.head, l.rows) then BoundTo(bundles[i], l.head.value, l.signed)
         else BoundTo(bundles[i], TreeHead(l.runId, |l.rows|, Mth(Leaves(l.rows)), now), None)
  {
    hide Bundle, CitationVerifies, ForFirstRow, BoundTo;
    forall i | 0 <= i < |ids| ensures CitationVerifies(bundles[i])
      && (SignedMatches(l) && bundles[i].signed.Some? ==> bundles[i].signed.value.head == bundles[i].head)
      && ForFirstRow(l.rows, ids[i], bundles[i])
      && if Describes(l.head, l.rows) then BoundTo(bundles[i], l.head.value, l.signed)
         else BoundTo(bundles[i], TreeHead(l.runId, |l.rows|, Mth(Leaves(l.rows)), now), None)
    {
      BundleVerifies(l, ids[i], now);
      BundleFields(l, ids[i], now);
    }
  }

  lemma AbsentId(rows: seq<Row>, id: string)
    ensures id !in Ids(rows) <==> Find(rows, id) == |rows|
  {
    var i := Find(rows, id);
    if i < |rows| {
      assert Ids(rows)[i] == id;
    }
  }

  lemma SentInjective<T>(a: seq<Digest<T>>, b: seq<Digest<T>>)
    requires Sent(a) == Sent(b)
    ensures a == b
  {
    assert forall i :: 0 <= i < |a| ==> Sent(a)[i] == Sent(b)[i];
  }
}
