/** The evidence ledger as a value: rows, hash chain, published head, and the
    two files it writes. The class in EvidenceLedger.dfy is proved against the
    step functions defined here.

    Digests are free constructors: a chain hash is equal to another only when it
    was computed from the same row content and the same parent. Foreign stands
    for any other string found in a loaded file. */
module LedgerModel {
  import opened MerkleLogs

  /** Everything content_digest() covers: all fields but the two chain links. */
  datatype Content = Content(id: string, body: string, metadata: map<string, string>)

  datatype ChainHash = Blank | Linked(content: Content, parent: ChainHash) | Foreign(text: string)

  datatype Row = Row(content: Content, parentHash: ChainHash, chainHash: ChainHash)

  type Head = TreeHead<ChainHash>
  type SignedHead = SignedTreeHead<ChainHash>

  // ---------- rows ----------

  function Contents(rows: seq<Row>): (cs: seq<Content>)
    ensures |cs| == |rows| && forall i :: 0 <= i < |rows| ==> cs[i] == rows[i].content
  {
    seq(|rows|, i requires 0 <= i < |rows| => rows[i].content)
  }

  function Leaves(rows: seq<Row>): (ls: seq<ChainHash>)
    ensures |ls| == |rows| && forall i :: 0 <= i < |rows| ==> ls[i] == rows[i].chainHash
  {
    seq(|rows|, i requires 0 <= i < |rows| => rows[i].chainHash)
  }

  predicate UniqueIds(rows: seq<Row>) {
    forall i, j :: 0 <= i < j < |rows| ==> rows[i].content.id != rows[j].content.id
  }

  /** Position of an id; |rows| when absent. */
  function Find(rows: seq<Row>, id: string): (i: nat)
    ensures i <= |rows|
    ensures forall j :: 0 <= j < i ==> rows[j].content.id != id
    ensures i < |rows| ==> rows[i].content.id == id
  {
    if rows == [] || rows[0].content.id == id then 0 else 1 + Find(rows[1..], id)
  }

  /** Assignment into an insertion-ordered dictionary keyed by row id. */
  function Put(rows: seq<Row>, row: Row): (r: seq<Row>)
    ensures UniqueIds(rows) ==> UniqueIds(r)
  {
    var i := Find(rows, row.content.id);
    if i < |rows| then rows[i := row] else rows + [row]
  }

  function PutAll(rows: seq<Row>): (r: seq<Row>)
    ensures UniqueIds(r)
    ensures UniqueIds(rows) ==> r == rows
  {
    if rows == [] then []
    else
      var n := |rows| - 1;
      assert rows == rows[..n] + [rows[n]];
      Put(PutAll(rows[..n]), rows[n])
  }

  lemma PutLookup(rows: seq<Row>, row: Row, id: string)
    ensures var r := Put(rows, row);
      if id == row.content.id then Find(r, id) < |r| && r[Find(r, id)] == row
      else (Find(r, id) < |r| <==> Find(rows, id) < |rows|)
           && (Find(rows, id) < |rows| ==> r[Find(r, id)] == rows[Find(rows, id)])
  {
    var i, r := Find(rows, row.content.id), Put(rows, row);
    assert r[i] == row && forall j :: 0 <= j < |rows| && j != i ==> r[j] == rows[j];
  }

  /** Rows read into the dictionary: under an id stands its last row. */
  lemma {:induction false} PutAllKeepsLast(rows: seq<Row>, i: nat)
    requires i < |rows| && forall j :: i < j < |rows| ==> rows[j].content.id != rows[i].content.id
    ensures var r := PutAll(rows);
      Find(r, rows[i].content.id) < |r| && r[Find(r, rows[i].content.id)] == rows[i]
  {
    hide Put;
    var n := |rows| - 1;
    PutLookup(PutAll(rows[..n]), rows[n], rows[i].content.id);
    if i < n {
      PutAllKeepsLast(rows[..n], i);
    }
  }

  lemma {:induction false} PutAllAddsNothing(rows: seq<Row>, id: string)
    ensures Find(PutAll(rows), id) < |PutAll(rows)| ==> exists i :: 0 <= i < |rows| && rows[i].content.id == id
  {
    hide Put;
    if rows != [] {
      var n := |rows| - 1;
      PutLookup(PutAll(rows[..n]), rows[n], id);
      PutAllAddsNothing(rows[..n], id);
    }
  }

  // ---------- the hash chain ----------

  /** The chain hash of the last of these contents, chained from the first. */
  function ChainOf(cs: seq<Content>): ChainHash {
    if cs == [] then Blank else Linked(cs[|cs| - 1], ChainOf(cs[..|cs| - 1]))
  }

  /** The chain hashes of all rows, in order. */
  function Chain(cs: seq<Content>): (hs: seq<ChainHash>)
    ensures |hs| == |cs| && forall i :: 0 <= i < |cs| ==> hs[i] == ChainOf(cs[..i + 1])
  {
    seq(|cs|, i requires 0 <= i < |cs| => ChainOf(cs[..i + 1]))
  }

  /** The row that binds the last of these contents. */
  function SealedRow(cs: seq<Content>): (r: Row)
    requires cs != []
    ensures r.content == cs[|cs| - 1]
  {
    Row(cs[|cs| - 1], ChainOf(cs[..|cs| - 1]), ChainOf(cs))
  }

  /** Every row's links are recomputable from the contents. */
  ghost predicate Sealed(rows: seq<Row>) {
    rows == [] || (Sealed(rows[..|rows| - 1]) && rows[|rows| - 1] == SealedRow(Contents(rows)))
  }

  function Resealed(rows: seq<Row>): (r: seq<Row>)
    ensures |r| == |rows| && Contents(r) == Contents(rows)
    ensures UniqueIds(rows) ==> UniqueIds(r)
  {
    var r := seq(|rows|, i requires 0 <= i < |rows| => SealedRow(Contents(rows)[..i + 1]));
    assert forall i :: 0 <= i < |rows| ==> r[i].content == Contents(rows)[i] == rows[i].content;
    r
  }

  lemma ContentsPrefix(rows: seq<Row>, n: nat)
    requires n <= |rows|
    ensures Contents(rows[..n]) == Contents(rows)[..n]
  {
  }

  lemma ResealedAt(rows: seq<Row>, i: nat)
    requires i < |rows|
    ensures Resealed(rows)[i] == SealedRow(Contents(rows)[..i + 1])
    ensures Resealed(rows)[i].chainHash == ChainOf(Contents(rows)[..i + 1])
  {
    hide ChainOf, Contents;
  }

  lemma ResealedPrefix(rows: seq<Row>, n: nat)
    requires n <= |rows|
    ensures Resealed(rows)[..n] == Resealed(rows[..n])
  {
    hide Resealed, SealedRow, Contents;
    ContentsPrefix(rows, n);
    forall i: nat | i < n ensures Resealed(rows)[i] == Resealed(rows[..n])[i] {
      ResealedAt(rows, i);
      ResealedAt(rows[..n], i);
      assert Contents(rows)[..n][..i + 1] == Contents(rows)[..i + 1];
    }
  }

  /** Resealing only depends on contents, and being sealed is being a fixpoint
      of it. */
  lemma {:induction false} SealedIsResealed(rows: seq<Row>)
    ensures Sealed(rows) <==> rows == Resealed(rows)
  {
    hide Resealed, SealedRow, Contents;
    if rows != [] {
      var n := |rows| - 1;
      SealedIsResealed(rows[..n]);
      ResealedPrefix(rows, n);
      ResealedAt(rows, n);
      assert Contents(rows)[..n + 1] == Contents(rows);
      assert rows == rows[..n] + [rows[n]];
      assert Resealed(rows) == Resealed(rows)[..n] + [Resealed(rows)[n]];
    }
  }

  lemma ResealedTwice(rows: seq<Row>)
    ensures Resealed(Resealed(rows)) == Resealed(rows)
  {
    hide Resealed, SealedRow, Contents;
    forall i: nat | i < |rows| ensures Resealed(Resealed(rows))[i] == Resealed(rows)[i] {
      ResealedAt(Resealed(rows), i);
      ResealedAt(rows, i);
    }
  }

  lemma ResealedIsSealed(rows: seq<Row>)
    ensures Sealed(Resealed(rows)) && Leaves(Resealed(rows)) == Chain(Contents(rows))
  {
    hide Resealed, SealedRow, Sealed, Contents, Leaves, Chain, ChainOf;
    SealedIsResealed(Resealed(rows));
    ResealedTwice(rows);
    forall i: nat | i < |rows| ensures Leaves(Resealed(rows))[i] == Chain(Contents(rows))[i] {
      ResealedAt(rows, i);
    }
  }

  lemma SealedAt(rows: seq<Row>, i: nat)
    requires Sealed(rows) && i < |rows|
    ensures rows[i] == SealedRow(Contents(rows)[..i + 1])
  {
    hide Resealed, SealedRow, Sealed, Contents;
    SealedIsResealed(rows);
    ResealedAt(rows, i);
  }

  lemma SealedLeaves(rows: seq<Row>)
    requires Sealed(rows)
    ensures Leaves(rows) == Chain(Contents(rows))
  {
    SealedIsResealed(rows);
    ResealedIsSealed(rows);
  }

  /** One chain hash pins down every content before it. */
  lemma {:induction false} ChainOfInjective(a: seq<Content>, b: seq<Content>)
    requires ChainOf(a) == ChainOf(b)
    ensures a == b
  {
    if a != [] && b != [] {
      ChainOfInjective(a[..|a| - 1], b[..|b| - 1]);
      assert a == a[..|a| - 1] + [a[|a| - 1]] && b == b[..|b| - 1] + [b[|b| - 1]];
    }
  }

  lemma ChainInjective(a: seq<Content>, b: seq<Content>)
    requires Chain(a) == Chain(b)
    ensures a == b
  {
    if a != [] {
      assert Chain(a)[|a| - 1] == Chain(b)[|a| - 1];
      assert a[..|a|] == a && b[..|b|] == b;
      ChainOfInjective(a, b);
    }
  }

  lemma ChainPrefix(cs: seq<Content>, n: nat)
    requires n <= |cs|
    ensures Chain(cs)[..n] == Chain(cs[..n])
  {
    forall i | 0 <= i < n ensures Chain(cs)[..n][i] == Chain(cs[..n])[i] {
      assert cs[..n][..i + 1] == cs[..i + 1];
    }
  }

  /** What a row appended now is linked to. */
  function Tip(rows: seq<Row>): ChainHash {
    if rows == [] then Blank else rows[|rows| - 1].chainHash
  }

  lemma SealedTip(rows: seq<Row>)
    ensures Sealed(rows) ==> Tip(rows) == ChainOf(Contents(rows))
  {
  }

  // ---------- verify_chain ----------

  datatype ChainIssue = ParentMismatch(id: string) | HashMismatch(id: string)

  /** The issues reported when the row after `parent` is row. */
  function RowIssues(row: Row, parent: ChainHash): seq<ChainIssue> {
    if row.parentHash != parent then [ParentMismatch(row.content.id)]
    else if row.chainHash != Linked(row.content, parent) then [HashMismatch(row.content.id)]
    else []
  }

  function ChainIssues(rows: seq<Row>): seq<ChainIssue> {
    if rows == [] then []
    else
      var n := |rows| - 1;
      ChainIssues(rows[..n]) + RowIssues(rows[n], Tip(rows[..n]))
  }

  /** Row i is the reason for this issue: it is linked to another parent than the
      row before it, or to that one but with other contents. */
  predicate Misfit(rows: seq<Row>, i: nat, e: ChainIssue)
    requires i < |rows|
  {
    var parent := if i == 0 then Blank else rows[i - 1].chainHash;
    match e
    case ParentMismatch(id) => id == rows[i].content.id && rows[i].parentHash != parent
    case HashMismatch(id) =>
      id == rows[i].content.id && rows[i].parentHash == parent && rows[i].chainHash != Linked(rows[i].content, parent)
  }

  /** The report names exactly the rows that do not fit, with the reason. */
  lemma {:induction false} IssuesExact(rows: seq<Row>, e: ChainIssue)
    ensures e in ChainIssues(rows) <==> exists i :: 0 <= i < |rows| && Misfit(rows, i, e)
  {
    hide Misfit, RowIssues, Tip;
    if rows != [] {
      var n := |rows| - 1;
      IssuesExact(rows[..n], e);
      LastMisfit(rows, e);
      forall i | 0 <= i < n ensures Misfit(rows, i, e) <==> Misfit(rows[..n], i, e) {
        EarlierMisfit(rows, i, e);
      }
    }
  }

  lemma LastMisfit(rows: seq<Row>, e: ChainIssue)
    requires rows != []
    ensures var n := |rows| - 1; e in RowIssues(rows[n], Tip(rows[..n])) <==> Misfit(rows, n, e)
  {
  }

  lemma EarlierMisfit(rows: seq<Row>, i: nat, e: ChainIssue)
    requires i < |rows| - 1
    ensures Misfit(rows, i, e) <==> Misfit(rows[..|rows| - 1], i, e)
  {
  }

  lemma {:induction false} NoIssuesIffSealed(rows: seq<Row>)
    ensures ChainIssues(rows) == [] <==> Sealed(rows)
  {
    hide Tip;
    if rows != [] {
      var n := |rows| - 1;
      NoIssuesIffSealed(rows[..n]);
      if Sealed(rows[..n]) {
        ContentsPrefix(rows, n);
        SealedTip(rows[..n]);
        assert rows[n].content == Contents(rows)[n];
      }
    }
  }
}
