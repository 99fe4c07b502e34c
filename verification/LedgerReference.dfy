/** The ledger without its hashes: a plain list of contents, what the canonical
    file holds, and what the write-ahead log holds. Every run of the real ledger
    shows the contents this list has. */
module LedgerReference {
  import opened Wrappers
  import opened MerkleTree
  import opened MerkleLogs
  import opened LedgerModel
  import opened LedgerHistory

  /** `covered` rows are under a published head; `saved` is the file. */
  datatype Plain = Plain(live: seq<Content>, covered: nat, saved: Option<seq<Content>>, logged: seq<Content>)

  const NOTHING := Plain([], 0, None, [])

  /** Position of an id; |cs| when absent. */
  function Position(cs: seq<Content>, id: string): (i: nat)
    ensures i <= |cs| && (i < |cs| ==> cs[i].id == id) && forall j :: 0 <= j < i ==> cs[j].id != id
  {
    if cs == [] || cs[0].id == id then 0 else 1 + Position(cs[1..], id)
  }

  /** Every key of the updates gets its new value, every other key keeps its own. */
  function Overwritten(old_: map<string, string>, updates: map<string, string>): map<string, string> {
    map k | k in old_.Keys + updates.Keys :: if k in updates then updates[k] else old_[k]
  }

  function Noted(c: Content, updates: map<string, string>): Content {
    Content(c.id, c.body, Overwritten(c.metadata, updates))
  }

  /** One operation on the list. A failed persist publishes its head all the same;
      a restart goes back to the file or, without one, to the log. */
  function PlainStep(durable: bool, p: Plain, op: Op): Plain {
    match op
    case DoRecord(c) =>
      p.(live := p.live + [c], logged := if durable && p.saved.None? then p.logged + [c] else p.logged)
    case DoAnnotate(id, updates) =>
      var i := Position(p.live, id);
      if p.covered <= i < |p.live| then p.(live := p.live[i := Noted(p.live[i], updates)]) else p
    case DoSeal => p
    case DoPersist(_, key) =>
      if !durable then p
      else if key.Malformed? && p.live != [] then p.(covered := |p.live|)
      else Plain(p.live, |p.live|, Some(p.live), [])
    case DoRestart =>
      if !durable then p
      else if p.saved.Some? then p.(live := p.saved.value, covered := |p.saved.value|)
      else p.(live := p.logged, covered := 0)
  }

  function PlainRun(durable: bool, p: Plain, ops: seq<Op>): Plain
    decreases |ops|
  {
    if ops == [] then p else PlainRun(durable, PlainStep(durable, p, ops[0]), ops[1..])
  }

  /** The list behind a ledger and its files. */
  function Seen(w: World): Plain {
    Plain(Contents(w.ledger.rows),
          if w.ledger.head.Some? then w.ledger.head.value.size else 0,
          if w.canonical.Readable? then Some(Contents(w.canonical.file.rows)) else None,
          if w.durable && w.canonical.Missing? then Contents(Decoded(Lines(w.wal))) else [])
  }

  lemma {:induction false} PositionIsFind(rows: seq<Row>, id: string)
    ensures Position(Contents(rows), id) == Find(rows, id)
  {
    if rows != [] {
      assert Contents(rows)[1..] == Contents(rows[1..]);
      PositionIsFind(rows[1..], id);
    }
  }

  lemma DecodedMore(lines: seq<Option<Row>>, row: Row)
    requires forall i :: 0 <= i < |lines| ==> lines[i].Some?
    ensures Decoded(lines + [Some(row)]) == Decoded(lines) + [row]
  {
    hide Decoded;
    DecodedWhole(lines);
    DecodedWhole(lines + [Some(row)]);
  }

  lemma LogIsWhole(w: World)
    requires Inv(w) && w.durable && w.canonical.Missing?
    ensures |Lines(w.wal)| == |w.ledger.rows| && forall i :: 0 <= i < |Lines(w.wal)| ==> Lines(w.wal)[i].Some?
  {
    forall i | 0 <= i < |Lines(w.wal)| ensures Lines(w.wal)[i].Some? {
      assert LineOf(Lines(w.wal)[i], w.ledger.rows[i]);
    }
  }

  lemma RecordSeen(w: World, c: Content)
    requires Inv(w) && Fresh(w, DoRecord(c))
    ensures Seen(Step(w, DoRecord(c))) == PlainStep(w.durable, Seen(w), DoRecord(c))
  {
    hide Seal, Sealed, Chain, Covers, RecordRow, Decoded;
    RecordLedgerOk(w.ledger, c);
    if w.durable && w.canonical.Missing? {
      LogIsWhole(w);
      DecodedMore(Lines(w.wal), RecordRow(w.ledger, c).1);
    }
  }

  lemma AnnotateSeen(w: World, id: string, updates: map<string, string>)
    ensures Seen(Step(w, DoAnnotate(id, updates))) == PlainStep(w.durable, Seen(w), DoAnnotate(id, updates))
  {
    hide Decoded, Position, Find, Contents;
    var rows, i := w.ledger.rows, Find(w.ledger.rows, id);
    PositionIsFind(rows, id);
    if i < |rows| {
      assert rows[i].content.metadata + updates == Overwritten(rows[i].content.metadata, updates);
      assert Contents(rows[i := Annotated(rows[i], updates)])
          == Contents(rows)[i := Noted(Contents(rows)[i], updates)];
    }
  }

  lemma PersistSeen(w: World, now: string, key: SigningKey)
    requires Inv(w)
    ensures Seen(Step(w, DoPersist(now, key))) == PlainStep(w.durable, Seen(w), DoPersist(now, key))
  {
    hide Seal, Sealed, Chain, Covers, Decoded, Mth;
    SealOk(w.ledger);
    SealFields(w.ledger);
    if w.ledger.rows == [] && w.ledger.head.Some? {
      HeadNeedsRows(w.ledger);
    }
  }

  lemma HeadNeedsRows(l: Ledger)
    requires LedgerOk(l)
    ensures l.rows == [] ==> l.head.None?
  {
    hide Sealed;
  }

  lemma RestartSeen(w: World)
    requires Inv(w)
    ensures Seen(Step(w, DoRestart)) == PlainStep(w.durable, Seen(w), DoRestart)
  {
    hide Sealed, Chain, Covers, Decoded, Mth, Resealed, LoadFile, PutAll, UniqueIds;
    if w.durable {
      if w.canonical.Readable? {
        LoadOwnFile(w.ledger.runId, w.canonical.file, true);
      } else {
        Replayed(w.ledger.rows, Lines(w.wal));
        LogIsWhole(w);
        DecodedWhole(Lines(w.wal));
        assert PutAll(Decoded(Lines(w.wal))) == Decoded(Lines(w.wal));
        assert Contents(Resealed(Decoded(Lines(w.wal)))) == Contents(Decoded(Lines(w.wal)));
      }
    }
  }

  lemma SeenStep(w: World, op: Op)
    requires Inv(w) && Fresh(w, op)
    ensures Seen(Step(w, op)) == PlainStep(w.durable, Seen(w), op)
  {
    hide Seen, Step, PlainStep, Inv;
    match op
    case DoRecord(c) => RecordSeen(w, c);
    case DoAnnotate(id, updates) => AnnotateSeen(w, id, updates);
    case DoSeal => SealSeen(w);
    case DoPersist(now, key) => PersistSeen(w, now, key);
    case DoRestart => RestartSeen(w);
  }

  lemma SealSeen(w: World)
    ensures Seen(Step(w, DoSeal)) == PlainStep(w.durable, Seen(w), DoSeal)
  {
    hide Decoded;
    assert Contents(Seal(w.ledger).rows) == Contents(w.ledger.rows);
  }

  lemma DurableStays(w: World, op: Op)
    ensures Step(w, op).durable == w.durable
  {
    hide Seal, Load;
  }

  /** Whatever is hashed, sealed late, signed, written and reloaded: over every run
      with fresh ids the rows, what a head covers, the file and the log hold
      exactly what the list holds. */
  lemma {:induction false} LedgerRefinesList(w: World, ops: seq<Op>)
    requires Inv(w) && FreshIds(w, ops)
    ensures Seen(Run(w, ops)) == PlainRun(w.durable, Seen(w), ops)
    decreases |ops|
  {
    hide Inv, Step, Seen, PlainStep, Fresh;
    if ops != [] {
      StepOk(w, ops[0]);
      SeenStep(w, ops[0]);
      DurableStays(w, ops[0]);
      LedgerRefinesList(Step(w, ops[0]), ops[1..]);
    }
  }

  /** From an empty ledger. */
  lemma ReachableIsList(runId: string, durable: bool, ops: seq<Op>)
    requires FreshIds(Start(runId, durable), ops)
    ensures Seen(Run(Start(runId, durable), ops)) == PlainRun(durable, NOTHING, ops)
  {
    hide Run, PlainRun, FreshIds, Inv;
    StartOk(runId, durable);
    LedgerRefinesList(Start(runId, durable), ops);
    assert Seen(Start(runId, durable)) == NOTHING;
  }

  // ---------- annotations ----------

  /** Metadata after some annotations, in their order. */
  function Overlaid(metadata: map<string, string>, notes: seq<map<string, string>>): map<string, string>
    decreases |notes|
  {
    if notes == [] then metadata else Overlaid(Overwritten(metadata, notes[0]), notes[1..])
  }

  /** The updates the run accepts for a row, in their order. */
  function NotesOn(durable: bool, p: Plain, ops: seq<Op>, id: string): seq<map<string, string>>
    decreases |ops|
  {
    if ops == [] then []
    else
      var accepted := ops[0].DoAnnotate? && ops[0].id == id && p.covered <= Position(p.live, id) < |p.live|;
      (if accepted then [ops[0].updates] else []) + NotesOn(durable, PlainStep(durable, p, ops[0]), ops[1..], id)
  }

  lemma {:induction false} PositionStays(cs: seq<Content>, ds: seq<Content>, id: string)
    requires |cs| <= |ds| && (forall i :: 0 <= i < |cs| ==> ds[i].id == cs[i].id) && Position(cs, id) < |cs|
    ensures Position(ds, id) == Position(cs, id)
  {
    if cs[0].id != id {
      PositionStays(cs[1..], ds[1..], id);
    }
  }

  lemma NotesCons(note: map<string, string>, notes: seq<map<string, string>>, metadata: map<string, string>)
    ensures Overlaid(metadata, [note] + notes) == Overlaid(Overwritten(metadata, note), notes)
    ensures [] + notes == notes
  {
    assert ([note] + notes)[1..] == notes;
  }

  /** Between restarts a row holds what was recorded, overwritten in order by the
      annotations the run accepted for it, and nothing else. */
  lemma {:induction false} MetadataIsOverlaid(durable: bool, p: Plain, ops: seq<Op>, i: nat)
    requires i < |p.live| && Position(p.live, p.live[i].id) == i
    requires forall k :: 0 <= k < |ops| ==> !ops[k].DoRestart?
    ensures var c, live := p.live[i], PlainRun(durable, p, ops).live;
      i < |live| && live[i] == Content(c.id, c.body, Overlaid(c.metadata, NotesOn(durable, p, ops, c.id)))
    decreases |ops|
  {
    hide Overwritten, Position;
    if ops != [] {
      var op, c, q := ops[0], p.live[i], PlainStep(durable, p, ops[0]);
      PositionStays(p.live, q.live, c.id);
      MetadataIsOverlaid(durable, q, ops[1..], i);
      var later := NotesOn(durable, q, ops[1..], c.id);
      NotesCons(if op.DoAnnotate? then op.updates else map[], later, c.metadata);
    }
  }

  /** The same for the ledger itself, from the moment a row is recorded. */
  lemma AnnotationsAreKept(runId: string, durable: bool, before: seq<Op>, c: Content, after: seq<Op>)
    requires FreshIds(Start(runId, durable), before + [DoRecord(c)] + after)
    requires forall k :: 0 <= k < |after| ==> !after[k].DoRestart?
    ensures var w := Run(Start(runId, durable), before + [DoRecord(c)]);
      var rows, i := Run(Start(runId, durable), before + [DoRecord(c)] + after).ledger.rows, |w.ledger.rows| - 1;
      && 0 <= i < |rows|
      && rows[i].content
         == Content(c.id, c.body, Overlaid(c.metadata, NotesOn(durable, Seen(w), after, c.id)))
  {
    hide Run, FreshIds, Inv, Step, PlainRun, NotesOn, Overlaid;
    var start := Start(runId, durable);
    StartOk(runId, durable);
    RunAppend(start, before + [DoRecord(c)], after);
    RunAppend(start, before, [DoRecord(c)]);
    OneStep(Run(start, before), DoRecord(c));
    RunOk(start, before);
    RunOk(start, before + [DoRecord(c)]);
    RunStaysDurable(start, before + [DoRecord(c)]);
    var u, w := Run(start, before), Run(start, before + [DoRecord(c)]);
    LedgerRefinesList(w, after);
    RecordedLast(u, c);
    MetadataIsOverlaid(durable, Seen(w), after, |w.ledger.rows| - 1);
  }

  lemma OneStep(w: World, op: Op)
    ensures Run(w, [op]) == Step(w, op) && (FreshIds(w, [op]) ==> Fresh(w, op))
  {
    hide Step, Fresh;
    assert [op][1..] == [];
  }

  lemma {:induction false} RunStaysDurable(w: World, ops: seq<Op>)
    ensures Run(w, ops).durable == w.durable
    decreases |ops|
  {
    hide Step;
    if ops != [] {
      DurableStays(w, ops[0]);
      RunStaysDurable(Step(w, ops[0]), ops[1..]);
    }
  }

  lemma RecordedLast(w: World, c: Content)
    requires Inv(w) && Fresh(w, DoRecord(c))
    ensures var live := Seen(Step(w, DoRecord(c))).live;
      live != [] && live[|live| - 1] == c && Position(live, c.id) == |live| - 1
  {
    hide Decoded, Step;
    RecordSeen(w, c);
    PositionIsFind(w.ledger.rows, c.id);
  }

  // ---------- what a restart brings back ----------

  /** A restart goes by the file as soon as there is one: a row comes back exactly
      when no file was ever written or the file has it. */
  lemma RowSurvivesRestartIff(w: World, i: nat)
    requires Inv(w) && w.durable && i < |w.ledger.rows|
    ensures var id, back := w.ledger.rows[i].content.id, Step(w, DoRestart).ledger.rows;
      Find(back, id) < |back| <==> w.canonical.Missing? || i < |w.canonical.file.rows|
  {
    hide Sealed, Chain, Covers, Decoded, Mth, Step;
    RestartSeen(w);
    var rows, back := w.ledger.rows, Step(w, DoRestart).ledger.rows;
    PositionIsFind(back, rows[i].content.id);
    var cs, id := Contents(back), rows[i].content.id;
    if w.canonical.Missing? {
      LogIsWhole(w);
      DecodedWhole(Lines(w.wal));
      assert LineOf(Lines(w.wal)[i], rows[i]);
      assert cs[i].id == id;
    } else {
      assert cs == Contents(rows)[..|w.canonical.file.rows|];
      if i < |cs| {
        assert cs[i].id == id;
      }
    }
  }

  lemma PersistClearsLog(w: World, now: string)
    requires w.durable
    ensures Step(w, DoPersist(now, Unset)).wal == None && Step(w, DoPersist(now, Unset)).durable
  {
    hide Seal, Mth, HeadToPublish, SignatureFor;
  }

  lemma RecordLogs(w: World, c: Content)
    requires w.durable
    ensures var lines := Lines(Step(w, DoRecord(c)).wal);
      && lines != [] && lines[..|lines| - 1] == Lines(w.wal)
      && lines[|lines| - 1].Some? && lines[|lines| - 1].value.content == c
    ensures Step(w, DoRecord(c)).durable
  {
    hide Seal, Put;
  }

  lemma FreshIfAbsent(w: World, c: Content)
    requires forall i :: 0 <= i < |Seen(w).live| ==> Seen(w).live[i].id != c.id
    ensures Fresh(w, DoRecord(c))
  {
    assert forall i :: 0 <= i < |w.ledger.rows| ==> w.ledger.rows[i].content == Seen(w).live[i];
  }

  /** So rows recorded behind a file are lost, although the log holds them. */
  lemma LoggedRowIsLost(runId: string, a: Content, b: Content)
    requires a.id != b.id
    ensures var ops := [DoRecord(a), DoPersist("t", Unset), DoRecord(b)];
      var w := Run(Start(runId, true), ops);
      && FreshIds(Start(runId, true), ops) && Seen(w).live == [a, b]
      && |Lines(w.wal)| == 1 && Lines(w.wal)[0].Some? && Lines(w.wal)[0].value.content == b
      && Contents(Step(w, DoRestart).ledger.rows) == [a]
  {
    hide Step, Inv, Position, Decoded, Fresh;
    var start := Start(runId, true);
    StartOk(runId, true);
    var w1 := Step(start, DoRecord(a));
    var w2 := Step(w1, DoPersist("t", Unset));
    var w3 := Step(w2, DoRecord(b));
    FreshIfAbsent(start, a);
    SeenStep(start, DoRecord(a));
    StepOk(start, DoRecord(a));
    RecordLogs(start, a);
    PersistIsFresh(w1, "t");
    SeenStep(w1, DoPersist("t", Unset));
    StepOk(w1, DoPersist("t", Unset));
    PersistClearsLog(w1, "t");
    FreshIfAbsent(w2, b);
    SeenStep(w2, DoRecord(b));
    StepOk(w2, DoRecord(b));
    RecordLogs(w2, b);
    RestartSeen(w3);
    ThreeSteps(start, DoRecord(a), DoPersist("t", Unset), DoRecord(b));
  }

  lemma PersistIsFresh(w: World, now: string)
    ensures Fresh(w, DoPersist(now, Unset))
  {
  }

  lemma ThreeSteps(w: World, a: Op, b: Op, c: Op)
    ensures var w1 := Step(w, a); var w2 := Step(w1, b);
      && Run(w, [a, b, c]) == Step(w2, c)
      && (FreshIds(w, [a, b, c]) <==> Fresh(w, a) && Fresh(w1, b) && Fresh(w2, c))
  {
    hide Step, Fresh;
    var w1 := Step(w, a);
    var w2 := Step(w1, b);
    assert [a, b, c][1..] == [b, c] && [b, c][1..] == [c] && [c][1..] == [];
    assert Run(w2, [c]) == Run(Step(w2, c), []) && (FreshIds(w2, [c]) <==> Fresh(w2, c));
    assert Run(w1, [b, c]) == Run(w2, [c]) && (FreshIds(w1, [b, c]) <==> Fresh(w1, b) && FreshIds(w2, [c]));
    assert Run(w, [a, b, c]) == Run(w1, [b, c]) && (FreshIds(w, [a, b, c]) <==> Fresh(w, a) && FreshIds(w1, [b, c]));
  }
}
