/** Runs of the evidence ledger: every operation as a step on the ledger and its
    two files, and what holds after any sequence of them. */
module LedgerHistory {
  import opened Wrappers
  import opened MerkleTree
  import opened MerkleLogs
  import opened LedgerModel

  datatype LedgerError = UnknownRow | CoveredByHead | BadSigningKey | HeadMismatch | BrokenChain | UnreadableFile

  /** The signing key found in the environment when a ledger is persisted. */
  datatype SigningKey = Unset | Malformed | Key(id: string)

  datatype Ledger = Ledger(runId: string, rows: seq<Row>, tip: ChainHash, stale: bool,
                           head: Option<Head>, signed: Option<SignedHead>)

  datatype File = File(runId: string, rows: seq<Row>, head: Option<Head>, signed: Option<SignedHead>)

  /** The persisted ledger file; Unreadable is a file that is not JSON. */
  datatype Canonical = Missing | Unreadable | Readable(file: File)

  /** Lines of the write-ahead log; None is a torn line. */
  type Wal = Option<seq<Option<Row>>>

  /** A ledger, whether it has a state directory, its files, and the list of all
      heads ever written to the canonical file. */
  datatype World = World(ledger: Ledger, durable: bool, canonical: Canonical, wal: Wal, published: seq<Head>)

  function EmptyLedger(runId: string): Ledger {
    Ledger(runId, [], Blank, false, None, None)
  }

  function Start(runId: string, durable: bool): World {
    World(EmptyLedger(runId), durable, Missing, None, [])
  }

  // ---------- operations ----------

  function Seal(l: Ledger): Ledger {
    if l.stale then l.(rows := Resealed(l.rows), tip := Tip(Resealed(l.rows)), stale := false) else l
  }

  function RecordRow(l: Ledger, c: Content): (Ledger, Row) {
    var s := Seal(l);
    var row := Row(c, s.tip, Linked(c, s.tip));
    (s.(rows := Put(s.rows, row), tip := row.chainHash), row)
  }

  function Lines(wal: Wal): seq<Option<Row>> {
    if wal.Some? then wal.value else []
  }

  function LogLine(w: World, row: Row): Wal {
    if !w.durable then w.wal else Some(Lines(w.wal) + [Some(row)])
  }

  function Annotated(row: Row, updates: map<string, string>): Row {
    row.(content := row.content.(metadata := row.content.metadata + updates))
  }

  function Annotate(l: Ledger, id: string, updates: map<string, string>): Result<Ledger, LedgerError> {
    var i := Find(l.rows, id);
    if i == |l.rows| then Failure(UnknownRow)
    else if l.head.Some? && i < l.head.value.size then Failure(CoveredByHead)
    else Success(l.(rows := l.rows[i := Annotated(l.rows[i], updates)], stale := true))
  }

  predicate SameCommitment(a: Head, b: Head) {
    a.root == b.root && a.size == b.size
  }

  function CurrentHead(l: Ledger, now: string): Head {
    TreeHead(l.runId, |l.rows|, Mth(Leaves(l.rows)), now)
  }

  /** The original commitment is kept while it still describes the rows. */
  function HeadToPublish(l: Ledger, now: string): Head {
    var head := CurrentHead(l, now);
    if l.head.Some? && SameCommitment(l.head.value, head) then l.head.value else head
  }

  /** The head commits to exactly these rows. */
  ghost predicate Describes(head: Option<Head>, rows: seq<Row>) {
    head.Some? && head.value.size == |rows| && head.value.root == Mth(Leaves(rows))
  }

  function SignatureFor(l: Ledger, head: Head, key: SigningKey): Option<SignedHead> {
    if key.Key? then Some(SignedTreeHead(head, key.id, SignatureOf(head, key.id)))
    else if l.signed.Some? && l.signed.value.head == head then l.signed
    else None
  }

  function Persist(w: World, now: string, key: SigningKey): (World, Option<LedgerError>) {
    if !w.durable then (w, None)
    else
      var l := Seal(w.ledger);
      if l.rows == [] then
        (w.(ledger := l, canonical := Readable(File(l.runId, [], None, None)), wal := None), None)
      else
        var head := HeadToPublish(l, now);
        if key.Malformed? then (w.(ledger := l.(head := Some(head))), Some(BadSigningKey))
        else
          var signed := SignatureFor(l, head, key);
          (World(l.(head := Some(head), signed := signed), true,
                 Readable(File(l.runId, l.rows, Some(head), signed)), None, w.published + [head]), None)
  }

  predicate Linkless(rows: seq<Row>) {
    forall i :: 0 <= i < |rows| ==> rows[i].chainHash == Blank
  }

  function LoadFile(runId: string, file: File, verify: bool): Result<Ledger, LedgerError> {
    var rows := PutAll(file.rows);
    if file.head.Some? && rows != [] && (file.head.value.runId != runId
         || file.head.value.size != |rows| || file.head.value.root != Mth(Leaves(rows))) then
      Failure(HeadMismatch)
    else if verify && !Linkless(rows) && ChainIssues(rows) != [] then
      Failure(BrokenChain)
    else
      Success(Ledger(runId, rows, Tip(rows), false, file.head, file.signed))
  }

  /** The rows before the first torn line. */
  function Decoded(lines: seq<Option<Row>>): seq<Row> {
    if lines == [] || lines[0].None? then [] else [lines[0].value] + Decoded(lines[1..])
  }

  function Recover(runId: string, lines: seq<Option<Row>>): Ledger {
    var rows := Resealed(PutAll(Decoded(lines)));
    Ledger(runId, rows, Tip(rows), false, None, None)
  }

  function Load(runId: string, canonical: Canonical, wal: Wal, verify: bool): Result<Ledger, LedgerError> {
    if canonical.Unreadable? && wal.None? then Failure(UnreadableFile)
    else if canonical.Readable? then LoadFile(runId, canonical.file, verify)
    else if wal.Some? then Success(Recover(runId, wal.value))
    else Success(EmptyLedger(runId))
  }

  // ---------- runs ----------

  datatype Op =
    | DoRecord(content: Content)
    | DoAnnotate(id: string, updates: map<string, string>)
    | DoSeal
    | DoPersist(now: string, key: SigningKey)
    | DoRestart

  function Step(w: World, op: Op): World {
    match op
    case DoRecord(c) =>
      var (l, row) := RecordRow(w.ledger, c);
      w.(ledger := l, wal := LogLine(w, row))
    case DoAnnotate(id, updates) =>
      var r := Annotate(w.ledger, id, updates);
      if r.Success? then w.(ledger := r.value) else w
    case DoSeal => w.(ledger := Seal(w.ledger))
    case DoPersist(now, key) => Persist(w, now, key).0
    case DoRestart =>
      if !w.durable then w
      else
        var r := Load(w.ledger.runId, w.canonical, w.wal, true);
        if r.Success? then w.(ledger := r.value) else w
  }

  function Run(w: World, ops: seq<Op>): World
    decreases |ops|
  {
    if ops == [] then w else Run(Step(w, ops[0]), ops[1..])
  }

  predicate Fresh(w: World, op: Op) {
    op.DoRecord? ==> Find(w.ledger.rows, op.content.id) == |w.ledger.rows|
  }

  /** Every recorded row gets an id no row of the ledger has. */
  ghost predicate FreshIds(w: World, ops: seq<Op>)
    decreases |ops|
  {
    ops == [] || (Fresh(w, ops[0]) && FreshIds(Step(w, ops[0]), ops[1..]))
  }

  lemma {:induction false} RunAppend(w: World, a: seq<Op>, b: seq<Op>)
    ensures Run(w, a + b) == Run(Run(w, a), b)
    ensures FreshIds(w, a + b) <==> FreshIds(w, a) && FreshIds(Run(w, a), b)
    decreases |a|
  {
    if a == [] {
      assert a + b == b;
    } else {
      assert (a + b)[0] == a[0] && (a + b)[1..] == a[1..] + b;
      RunAppend(Step(w, a[0]), a[1..], b);
    }
  }

  // ---------- lazy resealing ----------

  /** The reference semantics: annotate relinks the chain at once. */
  function EagerStep(w: World, op: Op): World {
    var v := Step(w, op);
    if op.DoAnnotate? then v.(ledger := Seal(v.ledger)) else v
  }

  function EagerRun(w: World, ops: seq<Op>): World
    decreases |ops|
  {
    if ops == [] then w else EagerRun(EagerStep(w, ops[0]), ops[1..])
  }

  /** What a chain reader sees. */
  function Observed(w: World): World {
    w.(ledger := Seal(w.ledger))
  }

  lemma FindByContents(a: seq<Row>, b: seq<Row>, id: string)
    requires Contents(a) == Contents(b)
    ensures Find(a, id) == Find(b, id)
  {
    assert forall i :: 0 <= i < |a| ==> a[i].content == Contents(a)[i] == b[i].content;
  }

  lemma SealAnnotate(l: Ledger, id: string, updates: map<string, string>)
    ensures var lazy, eager := Annotate(l, id, updates), Annotate(Seal(l), id, updates);
      && lazy.Success? == eager.Success?
      && (lazy.Success? ==> Seal(lazy.value) == Seal(eager.value))
      && (lazy.Failure? ==> lazy == eager)
  {
    var sealed := Seal(l).rows;
    assert Contents(sealed) == Contents(l.rows);
    FindByContents(l.rows, sealed, id);
    var i := Find(l.rows, id);
    if i < |l.rows| {
      assert l.rows[i].content == Contents(l.rows)[i] == sealed[i].content;
      var x := Annotated(l.rows[i], updates).content;
      assert Contents(l.rows[i := Annotated(l.rows[i], updates)]) == Contents(l.rows)[i := x];
      assert Contents(sealed[i := Annotated(sealed[i], updates)]) == Contents(sealed)[i := x];
    }
  }

  /** Relinking once before the next reader is indistinguishable from relinking
      on every write, over every run and every file written by it. */
  lemma {:induction false} LazyRefinesEager(w: World, ops: seq<Op>)
    ensures Observed(Run(w, ops)) == EagerRun(Observed(w), ops)
    decreases |ops|
  {
    if ops != [] {
      var op := ops[0];
      LazyStep(w, op);
      LazyRefinesEager(Step(w, op), ops[1..]);
    }
  }

  lemma LazyStep(w: World, op: Op)
    ensures Observed(Step(w, op)) == EagerStep(Observed(w), op)
  {
    if op.DoAnnotate? {
      SealAnnotate(w.ledger, op.id, op.updates);
    }
  }

  // ---------- what every step keeps ----------

  /** The chain hashes the contents call for, whatever is stored now. */
  function TrueLeaves(rows: seq<Row>): (ls: seq<ChainHash>)
    ensures |ls| == |rows|
  {
    Chain(Contents(rows))
  }

  ghost predicate HeadFits(runId: string, head: Option<Head>, rows: seq<Row>) {
    head.Some? ==> head.value.runId == runId && Covers(head.value, TrueLeaves(rows))
  }

  /** The signature was made by the named key, over the named head. */
  predicate Genuine(signed: Option<SignedHead>) {
    signed.Some? ==> signed.value.signature == SignatureOf(signed.value.head, signed.value.signer)
  }

  ghost predicate LedgerOk(l: Ledger) {
    && UniqueIds(l.rows) && Genuine(l.signed)
    && (!l.stale ==> Sealed(l.rows) && l.tip == Tip(l.rows))
    && HeadFits(l.runId, l.head, l.rows)
  }

  ghost predicate FileOk(runId: string, f: File) {
    && UniqueIds(f.rows) && Sealed(f.rows) && HeadFits(runId, f.head, f.rows)
    && (f.head.Some? <==> f.rows != [])
    && (f.head.Some? ==> f.head.value.size == |f.rows|)
    && (f.signed.Some? ==> f.head == Some(f.signed.value.head)) && Genuine(f.signed)
  }

  /** The file's rows are the oldest rows of the ledger, and its head protects
      them from being annotated. */
  ghost predicate FileIsPrefix(l: Ledger, f: File) {
    && |f.rows| <= |l.rows| && Contents(f.rows) == Contents(l.rows)[..|f.rows|]
    && (f.rows != [] ==> l.head.Some? && |f.rows| <= l.head.value.size)
  }

  /** The line was written when the row was recorded; only its metadata can
      have been annotated since. */
  predicate LineOf(line: Option<Row>, row: Row) {
    line.Some? && line.value.content.id == row.content.id && line.value.content.body == row.content.body
  }

  /** Before the first persist the log holds every row as it was recorded. */
  ghost predicate LogHolds(rows: seq<Row>, lines: seq<Option<Row>>) {
    |lines| == |rows| && forall i :: 0 <= i < |rows| ==> LineOf(lines[i], rows[i])
  }

  ghost predicate Inv(w: World) {
    && LedgerOk(w.ledger)
    && !w.canonical.Unreadable?
    && (w.canonical.Readable? ==> FileOk(w.ledger.runId, w.canonical.file) && FileIsPrefix(w.ledger, w.canonical.file))
    && (w.durable && w.canonical.Missing? ==> LogHolds(w.ledger.rows, Lines(w.wal)))
    && forall h :: h in w.published ==>
         w.canonical.Readable? && Covers(h, TrueLeaves(w.canonical.file.rows))
  }

  lemma SealOk(l: Ledger)
    requires LedgerOk(l)
    ensures LedgerOk(Seal(l)) && Contents(Seal(l).rows) == Contents(l.rows)
    ensures Sealed(Seal(l).rows) && Leaves(Seal(l).rows) == TrueLeaves(l.rows)
  {
    ResealedIsSealed(l.rows);
    SealedLeaves(Seal(l).rows);
  }

  /** Growing the contents leaves what a head covers alone. */
  lemma CoversLonger(h: Head, a: seq<Row>, b: seq<Row>)
    requires |a| <= |b| && Contents(a) == Contents(b)[..|a|] && Covers(h, TrueLeaves(a))
    ensures Covers(h, TrueLeaves(b))
  {
    ChainPrefix(Contents(b), |a|);
    assert TrueLeaves(a)[..h.size] == TrueLeaves(b)[..h.size];
  }

  /** So does a change of contents behind it. */
  lemma CoversUnchanged(h: Head, a: seq<Row>, b: seq<Row>)
    requires |a| == |b| && Covers(h, TrueLeaves(a)) && Contents(a)[..h.size] == Contents(b)[..h.size]
    ensures Covers(h, TrueLeaves(b))
  {
    ChainPrefix(Contents(a), h.size);
    ChainPrefix(Contents(b), h.size);
  }

  lemma AppendSealed(rows: seq<Row>, c: Content)
    requires Sealed(rows)
    ensures Sealed(rows + [Row(c, Tip(rows), Linked(c, Tip(rows)))])
    ensures Contents(rows + [Row(c, Tip(rows), Linked(c, Tip(rows)))]) == Contents(rows) + [c]
  {
    var row := Row(c, Tip(rows), Linked(c, Tip(rows)));
    var r := rows + [row];
    assert r[..|rows|] == rows;
    assert Contents(r) == Contents(rows) + [c];
    assert Contents(r)[..|rows|] == Contents(rows);
    SealedTip(rows);
  }

  lemma RecordLedgerOk(l: Ledger, c: Content)
    requires LedgerOk(l) && Find(l.rows, c.id) == |l.rows|
    ensures var (l', row) := RecordRow(l, c);
      && LedgerOk(l') && Contents(l'.rows) == Contents(l.rows) + [c]
      && l'.runId == l.runId && l'.head == l.head && l'.signed == l.signed && row.content == c
  {
    hide Seal, Sealed, Chain, Covers;
    var s := Seal(l);
    SealOk(l);
    SealFields(l);
    FindByContents(l.rows, s.rows, c.id);
    AppendSealed(s.rows, c);
    var l' := RecordRow(l, c).0;
    assert l'.rows == s.rows + [Row(c, Tip(s.rows), Linked(c, Tip(s.rows)))];
    assert Contents(l'.rows)[..|l.rows|] == Contents(l.rows);
    if l.head.Some? {
      CoversLonger(l.head.value, l.rows, l'.rows);
    }
  }

  lemma RecordOk(w: World, c: Content)
    requires Inv(w) && Fresh(w, DoRecord(c))
    ensures Inv(Step(w, DoRecord(c)))
  {
    hide Seal, Sealed, Chain, Covers, RecordRow;
    var l := w.ledger;
    RecordLedgerOk(l, c);
    var w' := Step(w, DoRecord(c));
    if w.canonical.Readable? {
      var f := w.canonical.file;
      assert (Contents(l.rows) + [c])[..|f.rows|] == Contents(l.rows)[..|f.rows|];
      assert FileIsPrefix(w'.ledger, f);
    }
    forall i | 0 <= i < |w'.ledger.rows| ensures
      w'.ledger.rows[i].content == if i < |l.rows| then l.rows[i].content else c
    {
      assert w'.ledger.rows[i].content == (Contents(l.rows) + [c])[i];
    }
    assert w.durable && w.canonical.Missing? ==> LogHolds(w'.ledger.rows, Lines(w'.wal));
  }

  lemma SealFields(l: Ledger)
    ensures Seal(l).runId == l.runId && Seal(l).head == l.head && Seal(l).signed == l.signed
    ensures !Seal(l).stale && |Seal(l).rows| == |l.rows| && Seal(Seal(l)) == Seal(l)
    ensures LedgerOk(l) ==> Seal(l).tip == Tip(Seal(l).rows)
  {
  }

  lemma AnnotateOk(w: World, id: string, updates: map<string, string>)
    requires Inv(w)
    ensures Inv(Step(w, DoAnnotate(id, updates)))
  {
    hide Seal, Sealed, Chain, Covers;
    var l := w.ledger;
    var r := Annotate(l, id, updates);
    if r.Success? {
      var i, rows' := Find(l.rows, id), r.value.rows;
      forall n | 0 <= n <= i ensures Contents(rows')[..n] == Contents(l.rows)[..n] {
      }
      if l.head.Some? {
        assert l.head.value.size <= i;
        CoversUnchanged(l.head.value, l.rows, rows');
      }
      assert LedgerOk(r.value);
      assert w.canonical.Readable? ==> FileIsPrefix(r.value, w.canonical.file);
      assert w.durable && w.canonical.Missing? ==> LogHolds(r.value.rows, Lines(w.wal));
    }
  }

  lemma SealStepOk(w: World)
    requires Inv(w)
    ensures Inv(w.(ledger := Seal(w.ledger)))
  {
    hide Seal, Sealed, Chain, Covers;
    SealOk(w.ledger);
    SealFields(w.ledger);
    var l, s := w.ledger, Seal(w.ledger);
    forall i | 0 <= i < |l.rows| ensures s.rows[i].content == l.rows[i].content {
      assert s.rows[i].content == Contents(s.rows)[i];
    }
    assert w.canonical.Readable? ==> FileIsPrefix(s, w.canonical.file);
    assert w.durable && w.canonical.Missing? ==> LogHolds(s.rows, Lines(w.wal));
  }

  lemma LeavesCovered(head: Head, rows: seq<Row>)
    requires rows != [] && Sealed(rows) && head.size == |rows| && head.root == Mth(Leaves(rows))
    ensures Covers(head, TrueLeaves(rows))
  {
    hide Sealed, Chain, Mth;
    SealedLeaves(rows);
    assert TrueLeaves(rows)[..|rows|] == TrueLeaves(rows);
  }

  lemma PersistOk(w: World, now: string, key: SigningKey)
    requires Inv(w)
    ensures Inv(Persist(w, now, key).0)
  {
    hide Seal, Sealed, Chain, Covers, Mth;
    SealStepOk(w);
    SealFields(w.ledger);
    SealOk(w.ledger);
    var l := Seal(w.ledger);
    if w.durable && l.rows != [] {
      var head := HeadToPublish(l, now);
      LeavesCovered(head, l.rows);
      assert HeadFits(l.runId, Some(head), l.rows);
      if key.Malformed? {
        if w.canonical.Readable? {
          assert FileIsPrefix(l.(head := Some(head)), w.canonical.file);
        }
      } else {
        var w' := Persist(w, now, key).0;
        var f := w'.canonical.file;
        assert Contents(f.rows) == Contents(w'.ledger.rows)[..|f.rows|];
        forall h | h in w.published ensures Covers(h, TrueLeaves(f.rows)) {
          CoversLonger(h, w.canonical.file.rows, f.rows);
        }
      }
    }
  }

  lemma LoadOwnFile(runId: string, f: File, verify: bool)
    requires FileOk(runId, f)
    ensures LoadFile(runId, f, verify) == Success(Ledger(runId, f.rows, Tip(f.rows), false, f.head, f.signed))
  {
    hide Sealed, Chain, Mth, Covers;
    NoIssuesIffSealed(f.rows);
    SealedLeaves(f.rows);
    if f.head.Some? {
      CoversAll(f.head.value, f.rows);
    }
  }

  lemma CoversAll(head: Head, rows: seq<Row>)
    requires Covers(head, TrueLeaves(rows)) && head.size == |rows|
    ensures head.root == Mth(TrueLeaves(rows))
  {
    assert TrueLeaves(rows)[..|rows|] == TrueLeaves(rows);
  }

  lemma {:induction false} DecodedWhole(lines: seq<Option<Row>>)
    requires forall i :: 0 <= i < |lines| ==> lines[i].Some?
    ensures |Decoded(lines)| == |lines|
    ensures forall i :: 0 <= i < |lines| ==> Decoded(lines)[i] == lines[i].value
  {
    if lines != [] {
      DecodedWhole(lines[1..]);
    }
  }

  /** A whole log is replayed line by line. */
  lemma Replayed(rows: seq<Row>, lines: seq<Option<Row>>)
    requires UniqueIds(rows) && LogHolds(rows, lines)
    ensures var replayed := PutAll(Decoded(lines));
      && UniqueIds(replayed) && |replayed| == |lines|
      && forall i :: 0 <= i < |lines| ==> lines[i].Some? && replayed[i] == lines[i].value
  {
    hide PutAll, Decoded;
    assert forall i :: 0 <= i < |lines| ==> LineOf(lines[i], rows[i]);
    DecodedWhole(lines);
    assert UniqueIds(Decoded(lines));
  }

  lemma RecoverOk(l: Ledger, lines: seq<Option<Row>>)
    requires LedgerOk(l) && LogHolds(l.rows, lines)
    ensures var r := Recover(l.runId, lines);
      LedgerOk(r) && LogHolds(r.rows, lines) && r.head.None? && r.signed.None? && r.runId == l.runId
  {
    hide Sealed, Chain, Resealed, PutAll, Decoded, Contents, Tip, UniqueIds;
    Replayed(l.rows, lines);
    var rows := PutAll(Decoded(lines));
    ResealedIsSealed(rows);
    var r := Recover(l.runId, lines);
    forall i | 0 <= i < |lines| ensures r.rows[i].content == lines[i].value.content {
      assert r.rows[i].content == Contents(r.rows)[i] == Contents(rows)[i];
    }
  }

  lemma RestartOk(w: World)
    requires Inv(w)
    ensures Inv(Step(w, DoRestart))
  {
    hide Sealed, Chain, Covers, Mth, LoadFile, Recover;
    if w.durable {
      if w.canonical.Readable? {
        var f := w.canonical.file;
        LoadOwnFile(w.ledger.runId, f, true);
        assert Contents(f.rows)[..|f.rows|] == Contents(f.rows);
      } else if w.wal.Some? {
        RecoverOk(w.ledger, w.wal.value);
      } else {
        EmptyOk(w.ledger.runId);
      }
    }
  }

  lemma EmptyOk(runId: string)
    ensures LedgerOk(EmptyLedger(runId))
  {
  }

  lemma StepOk(w: World, op: Op)
    requires Inv(w) && Fresh(w, op)
    ensures Inv(Step(w, op))
  {
    hide Inv, Persist, Annotate, RecordRow, Load;
    match op
    case DoRecord(c) => RecordOk(w, c);
    case DoAnnotate(id, updates) => AnnotateOk(w, id, updates);
    case DoSeal => SealStepOk(w);
    case DoPersist(now, key) => PersistOk(w, now, key);
    case DoRestart => RestartOk(w);
  }

  lemma {:induction false} RunOk(w: World, ops: seq<Op>)
    requires Inv(w) && FreshIds(w, ops)
    ensures Inv(Run(w, ops))
    decreases |ops|
  {
    hide Inv, Step;
    if ops != [] {
      StepOk(w, ops[0]);
      RunOk(Step(w, ops[0]), ops[1..]);
    }
  }

  lemma StartOk(runId: string, durable: bool)
    ensures Inv(Start(runId, durable))
  {
    EmptyOk(runId);
  }
}
