/** The supplier identity registry object. */
module IdentityRegistry {
  import opened Wrappers
  import opened AliasModel

  /** One persisted alias row. */
  datatype AliasRow = AliasRow(alias: string, record: Alias)

  /** Follow the aliases from an id; a failure means they run in a circle. */
  method ResolveFrom(start: string, aliases: Aliases) returns (r: Result<string, AliasError>)
    ensures r.Success? ==> Leads(aliases, start, r.value)
    ensures r.Failure? ==> r == Failure(AliasCycle) && forall t :: !Leads(aliases, start, t)
  {
    var current := start;
    var visited: set<string> := {};
    ghost var p := [start];
    while current in aliases
      invariant Follows(aliases, p) && p[0] == start && p[|p| - 1] == current
      invariant visited <= aliases.Keys
      invariant forall v :: v in visited ==> exists k :: 0 <= k < |p| - 1 && p[k] == v
      invariant forall k :: 0 <= k < |p| - 1 ==> p[k] in visited
      decreases aliases.Keys - visited
    {
      if current in visited {
        ghost var k :| 0 <= k < |p| - 1 && p[k] == current;
        forall t ensures !Leads(aliases, start, t) {
          ReturnHasNoEnd(aliases, p, k, t);
        }
        return Failure(AliasCycle);
      }
      visited := visited + {current};
      ghost var q := p;
      current := aliases[current].canonical;
      p := p + [current];
      assert forall k :: 0 <= k < |q| ==> p[k] == q[k];
      assert p[|q| - 1] == q[|q| - 1];
    }
    assert Chain(aliases, p, start, current);
    return Success(current);
  }

  /** Point every alias straight at its canonical id. The rows are rewritten one
      after the other while later ones are still being followed. */
  method Normalize(aliases: Aliases) returns (r: Result<Aliases, AliasError>)
    ensures r.Success? <==> Acyclic(aliases)
    ensures r.Failure? ==> r == Failure(AliasCycle)
    ensures r.Success? ==> Flat(r.value) && r.value.Keys == aliases.Keys
    ensures r.Success? ==> forall x :: x in aliases ==>
      r.value[x].evidence == aliases[x].evidence && Leads(aliases, x, r.value[x].canonical)
  {
    var m := aliases;
    var todo := aliases.Keys;
    while todo != {}
      invariant todo <= aliases.Keys == m.Keys
      invariant forall x, t :: Leads(m, x, t) <==> Leads(aliases, x, t)
      invariant forall x :: x in aliases ==> m[x].evidence == aliases[x].evidence
      invariant forall x :: x in aliases && x !in todo ==> m[x].canonical !in m && Leads(aliases, x, m[x].canonical)
      decreases |todo|
    {
      var alias :| alias in todo;
      var canonical := ResolveFrom(m[alias].canonical, m);
      if canonical.Failure? {
        NoEndBefore(m, alias);
        assert alias in aliases && forall t :: !Leads(aliases, alias, t);
        return Failure(AliasCycle);
      }
      LeadsBefore(m, alias, canonical.value);
      if canonical.value == alias {
        assert false;
      }
      forall x, t ensures Leads(m[alias := m[alias].(canonical := canonical.value)], x, t) <==> Leads(m, x, t) {
        CompressKeepsEnds(m, alias, canonical.value, x, t);
      }
      m := m[alias := m[alias].(canonical := canonical.value)];
      todo := todo - {alias};
    }
    return Success(m);
  }

  lemma LeadsBefore(m: Aliases, x: string, r: string)
    requires x in m && Leads(m, m[x].canonical, r)
    ensures Leads(m, x, r) && r !in m
  {
    var p :| Chain(m, p, m[x].canonical, r);
    assert Chain(m, [x] + p, x, r);
  }

  lemma NoEndBefore(m: Aliases, x: string)
    requires x in m && forall t :: !Leads(m, m[x].canonical, t)
    ensures forall t :: !Leads(m, x, t)
  {
    forall t ensures !Leads(m, x, t) {
      if Leads(m, x, t) {
        var p :| Chain(m, p, x, t);
        assert p[0] == x && |p| > 1;
        ChainThrough(m, p, x, t, 1);
      }
    }
  }

  /** The registry of one owner. A durable one lives in a file that other
      processes change too, so its own `aliases` may be out of date between calls;
      `stored` is what the registry holds at present, wherever it lives. */
  class SupplierIdentityRegistry {
    const durable: bool
    var aliases: Aliases
    var file: Option<seq<AliasRow>>
    ghost var stored: Aliases
    ghost var accepted: Pairs

    /** Flat, and a representation of the approvals accepted so far. */
    ghost predicate Valid()
      reads this
    {
      && Flat(stored) && Named(stored) && Represents(stored, accepted)
      && (if !durable then aliases == stored
          else if file.Some? then Lists(file.value, stored)
          else stored == map[])
    }

    constructor (durable: bool)
      ensures Valid() && this.durable == durable && stored == map[] && accepted == {}
    {
      this.durable := durable;
      aliases, file, stored, accepted := map[], None, map[], {};
      new;
      EmptyRepresents();
    }

    /** Open the file another registry of the owner has written. */
    constructor Open(rows: seq<AliasRow>, ghost stored: Aliases, ghost accepted: Pairs)
      requires Lists(rows, stored) && Flat(stored) && Named(stored) && Represents(stored, accepted)
      ensures Valid() && durable && this.stored == stored && this.accepted == accepted && aliases == stored
    {
      var r := ReadRows(rows);
      durable := true;
      aliases, file := r.value, Some(rows);
      this.stored, this.accepted := stored, accepted;
    }

    /** What a durable registry does first, under the file lock. */
    method Reread()
      requires Valid()
      modifies this`aliases
      ensures Valid() && aliases == stored
    {
      if !durable {
        return;
      }
      if file.None? {
        aliases := map[];
        return;
      }
      var r := ReadRows(file.value);
      aliases := r.value;
    }

    /** Approve an alias; a rejected approval changes nothing. */
    method ApproveAlias(alias: string, canonical: string, refs: seq<string>) returns (error: Option<AliasError>)
      requires Valid()
      modifies this
      ensures Valid()
      ensures (stored, accepted) == Step(old(stored), old(accepted), Approval(alias, canonical, refs))
      ensures error.None? <==> Approve(old(stored), alias, canonical, refs).Success?
      ensures error.Some? ==> Approve(old(stored), alias, canonical, refs) == Failure(error.value)
      ensures error.Some? ==> file == old(file)
      ensures ApproveHolds(old(stored), alias, canonical, refs,
                           if error.None? then Success(stored) else Failure(error.value))
      ensures error == Some(AlreadyMapped) ==> !Linked(old(accepted), alias, canonical)
      ensures error.None? ==> accepted == old(accepted) + {(alias, canonical)}
    {
      hide Approve, Flat, Named, Represents, Lists, ApproveHolds;
      ApproveEffects(stored, alias, canonical, refs);
      RefusedIsUnlinked(stored, accepted, alias, canonical, refs);
      if alias == "" || canonical == "" || alias == canonical || refs == [] {
        return Refusal(stored, alias, canonical, refs);
      }
      Reread();
      var changed := Mutate(aliases, alias, canonical, refs);
      if changed.Failure? {
        return Some(changed.error);
      }
      ApproveRepresents(stored, accepted, alias, canonical, refs);
      ApproveNamed(stored, alias, canonical, refs);
      aliases := changed.value;
      stored, accepted := changed.value, accepted + {(alias, canonical)};
      if durable {
        var rows := WriteRows(aliases);
        file := Some(rows);
      }
      return None;
    }

    /** The canonical id; None for a blank one. */
    method Resolve(id: string) returns (r: Option<string>)
      requires Valid()
      modifies this`aliases
      ensures Valid()
      ensures r == if id == "" then None else Some(Canon(stored, id))
      ensures r.Some? ==> Leads(stored, id, r.value) && Linked(accepted, id, r.value)
    {
      if id == "" {
        return None;
      }
      Reread();
      var canonical := FlatResolve(aliases, id);
      FlatLeads(aliases, id);
      assert Canon(aliases, canonical) == canonical;
      return Some(canonical);
    }

    /** Two named ids are equivalent exactly when accepted approvals link them. */
    method Equivalent(left: string, right: string) returns (same: bool)
      requires Valid()
      modifies this`aliases
      ensures Valid()
      ensures same <==> left != "" && right != "" && Linked(accepted, left, right)
    {
      if left == "" || right == "" {
        return false;
      }
      Reread();
      var l := FlatResolve(aliases, left);
      var r := FlatResolve(aliases, right);
      return l == r;
    }

    /** Read persisted rows, refusing blank, repeated or circular ones. */
    static method ReadRows(rows: seq<AliasRow>) returns (r: Result<Aliases, AliasError>)
      ensures r.Success? ==> Flat(r.value)
      ensures r.Success? <==> RowsOk(rows) && Acyclic(RowMap(rows))
      ensures r == Failure(AliasCycle) <==> RowsOk(rows) && !Acyclic(RowMap(rows))
      ensures !RowsOk(rows) ==> exists i ::
        && 0 <= i < |rows| && RowsOk(rows[..i]) && !RowsOk(rows[..i + 1])
        && r == Failure(if rows[i].alias == "" || rows[i].record.canonical == "" then BlankId
                        else if rows[i].alias == rows[i].record.canonical then SameId else AlreadyMapped)
      ensures r.Success? ==> r.value.Keys == RowMap(rows).Keys
      ensures r.Success? ==> forall x :: x in r.value ==>
        r.value[x].evidence == RowMap(rows)[x].evidence && Leads(RowMap(rows), x, r.value[x].canonical)
      ensures forall m {:trigger Lists(rows, m)} :: Lists(rows, m) && Flat(m) && Named(m) ==> r == Success(m)
    {
      var m: Aliases := map[];
      var i := 0;
      while i < |rows|
        invariant 0 <= i <= |rows| && m == RowMap(rows[..i]) && RowsOk(rows[..i])
      {
        var row := rows[i];
        var prefix := rows[..i + 1];
        assert prefix[..i] == rows[..i] && prefix[i] == row;
        RowMapKeys(rows[..i], row.alias);
        if row.alias == "" || row.record.canonical == "" {
          BadRow(rows, i);
          return Failure(BlankId);
        }
        if row.alias == row.record.canonical {
          BadRow(rows, i);
          return Failure(SameId);
        }
        if row.alias in m {
          BadRow(rows, i);
          return Failure(AlreadyMapped);
        }
        m := m[row.alias := row.record];
        i := i + 1;
      }
      assert rows[..i] == rows;
      r := Normalize(m);
      forall written {:trigger Lists(rows, written)} | Lists(rows, written) && Flat(written) && Named(written)
        ensures r == Success(written)
      {
        ListedReadsBack(rows, written);
        FlatIsNormal(written);
        NormalForm(written, r.value, written);
      }
    }
  }

  // ---------- the file ----------

  predicate Named(m: Aliases) {
    forall x :: x in m ==> x != "" && m[x].canonical != ""
  }

  /** The rows are the entries of the map, each once, in whatever order. */
  ghost predicate Lists(rows: seq<AliasRow>, m: Aliases) {
    && (forall i :: 0 <= i < |rows| ==> rows[i].alias in m && rows[i].record == m[rows[i].alias])
    && (forall i, j :: 0 <= i < j < |rows| ==> rows[i].alias != rows[j].alias)
    && (forall x :: x in m ==> exists i :: 0 <= i < |rows| && rows[i].alias == x)
  }

  /** Reading what was written gives the same map back. */
  lemma ListedReadsBack(rows: seq<AliasRow>, m: Aliases)
    requires Lists(rows, m)
    ensures RowMap(rows) == m
    ensures Flat(m) && Named(m) ==> RowsOk(rows)
  {
    forall x ensures x in RowMap(rows) <==> x in m {
      RowMapKeys(rows, x);
    }
    forall i | 0 <= i < |rows| ensures RowMap(rows)[rows[i].alias] == rows[i].record {
      RowMapAt(rows, i);
    }
  }

  lemma {:induction false} RowMapAt(rows: seq<AliasRow>, i: nat)
    requires i < |rows| && forall j :: i < j < |rows| ==> rows[j].alias != rows[i].alias
    ensures rows[i].alias in RowMap(rows) && RowMap(rows)[rows[i].alias] == rows[i].record
  {
    if i < |rows| - 1 {
      RowMapAt(rows[..|rows| - 1], i);
    }
  }

  /** The rows of the file; the source sorts them, here their order is arbitrary. */
  method WriteRows(m: Aliases) returns (rows: seq<AliasRow>)
    ensures Lists(rows, m)
  {
    rows := [];
    var todo := m.Keys;
    while todo != {}
      invariant todo <= m.Keys
      invariant forall i :: 0 <= i < |rows| ==>
        rows[i].alias in m && rows[i].record == m[rows[i].alias] && rows[i].alias !in todo
      invariant forall i, j :: 0 <= i < j < |rows| ==> rows[i].alias != rows[j].alias
      invariant forall x :: x in m && x !in todo ==> exists i :: 0 <= i < |rows| && rows[i].alias == x
      decreases |todo|
    {
      var alias :| alias in todo;
      ghost var before := rows;
      rows := rows + [AliasRow(alias, m[alias])];
      todo := todo - {alias};
      forall x | x in m && x !in todo ensures exists i :: 0 <= i < |rows| && rows[i].alias == x {
        if x == alias {
          assert rows[|before|].alias == x;
        } else {
          var i :| 0 <= i < |before| && before[i].alias == x;
          assert rows[i].alias == x;
        }
      }
    }
  }

  // ---------- the mutation ----------

  /** The error of an approval that is refused before the registry is read. */
  function Refusal(ghost m: Aliases, alias: string, canonical: string, refs: seq<string>): (e: Option<AliasError>)
    requires Flat(m) && (alias == "" || canonical == "" || alias == canonical || refs == [])
    ensures e.Some? && Approve(m, alias, canonical, refs) == Failure(e.value)
  {
    Some(if alias == "" || canonical == "" then BlankId else if alias == canonical then SameId else NoEvidence)
  }

  /** Apply an approval to a flat map and flatten it again. */
  method Mutate(m: Aliases, alias: string, canonical: string, refs: seq<string>)
    returns (r: Result<Aliases, AliasError>)
    requires Flat(m) && alias != "" && canonical != "" && alias != canonical && refs != []
    ensures r == Approve(m, alias, canonical, refs)
  {
    hide Approve, Acyclic, Leads, Flat;
    ApproveCases(m, alias, canonical, refs);
    var target := FlatResolve(m, canonical);
    if target == alias {
      return Failure(WouldCycle);
    }
    var changed: Aliases;
    if alias in m {
      var existing := FlatResolve(m, m[alias].canonical);
      CanonTwice(m, alias);
      if existing != target {
        return Failure(AlreadyMapped);
      }
      var evidence := MergeEvidence(m[alias].evidence, refs);
      changed := m[alias := m[alias].(evidence := evidence)];
      FlatEvidence(m, alias, evidence);
      FlatIsNormal(changed);
    } else {
      changed := m[alias := Alias(target, refs)];
      CanonTwice(m, canonical);
      OneLinkFromFlat(m, alias, target, refs);
      RedirectedAt(m, alias, target);
    }
    var normal := Normalize(changed);
    NormalForm(changed, normal.value, Approve(m, alias, canonical, refs).value);
    return Success(normal.value);
  }

  lemma ApproveCases(m: Aliases, alias: string, canonical: string, refs: seq<string>)
    requires alias != "" && canonical != "" && alias != canonical && refs != []
    ensures var target := Canon(m, canonical);
      Approve(m, alias, canonical, refs)
      == if target == alias then Failure(WouldCycle)
         else if alias !in m then Success(Redirected(m, alias, target)[alias := Alias(target, refs)])
         else if Canon(m, alias) != target then Failure(AlreadyMapped)
         else Success(m[alias := m[alias].(evidence := NewEvidence(m[alias].evidence, refs))])
  {
  }

  lemma CanonTwice(m: Aliases, x: string)
    requires Flat(m)
    ensures Canon(m, Canon(m, x)) == Canon(m, x) && Canon(m, x) !in m
  {
  }

  lemma FlatEvidence(m: Aliases, alias: string, evidence: seq<string>)
    requires Flat(m) && alias in m
    ensures Flat(m[alias := m[alias].(evidence := evidence)])
  {
  }

  lemma RedirectedAt(m: Aliases, alias: string, target: string)
    ensures Redirected(m, alias, target).Keys == m.Keys
    ensures forall x :: x in m ==>
      Redirected(m, alias, target)[x].evidence == m[x].evidence
      && Redirected(m, alias, target)[x].canonical == if m[x].canonical == alias then target else m[x].canonical
  {
  }

  /** What is refused as already mapped is not linked by the approvals so far. */
  lemma RefusedIsUnlinked(m: Aliases, e: Pairs, alias: string, canonical: string, refs: seq<string>)
    requires Flat(m) && Represents(m, e)
    ensures Approve(m, alias, canonical, refs) == Failure(AlreadyMapped) ==> !Linked(e, alias, canonical)
  {
    hide Linked;
  }

  lemma ApproveNamed(m: Aliases, alias: string, canonical: string, refs: seq<string>)
    requires Flat(m) && Named(m) && Approve(m, alias, canonical, refs).Success?
    ensures Named(Approve(m, alias, canonical, refs).value)
  {
  }

  predicate RowOk(row: AliasRow) {
    row.alias != "" && row.record.canonical != "" && row.alias != row.record.canonical
  }

  predicate RowsOk(rows: seq<AliasRow>) {
    (forall i :: 0 <= i < |rows| ==> RowOk(rows[i]))
    && forall i, j :: 0 <= i < j < |rows| ==> rows[i].alias != rows[j].alias
  }

  function RowMap(rows: seq<AliasRow>): Aliases {
    if rows == [] then map[]
    else RowMap(rows[..|rows| - 1])[rows[|rows| - 1].alias := rows[|rows| - 1].record]
  }

  lemma {:induction false} RowMapKeys(rows: seq<AliasRow>, x: string)
    ensures x in RowMap(rows) <==> exists i :: 0 <= i < |rows| && rows[i].alias == x
  {
    if rows != [] {
      RowMapKeys(rows[..|rows| - 1], x);
    }
  }

  lemma BadRow(rows: seq<AliasRow>, i: nat)
    requires i < |rows|
    requires !RowOk(rows[i]) || exists j :: 0 <= j < i && rows[j].alias == rows[i].alias
    ensures !RowsOk(rows)
  {
  }

  /** On a flat registry, following an alias takes one look-up. */
  method FlatResolve(m: Aliases, x: string) returns (r: string)
    requires Flat(m)
    ensures r == Canon(m, x)
  {
    FlatLeads(m, x);
    var followed := ResolveFrom(x, m);
    LeadsUnique(m, x, followed.value, Canon(m, x));
    r := followed.value;
  }

  method MergeEvidence(old_: seq<string>, refs: seq<string>) returns (evidence: seq<string>)
    ensures evidence == NewEvidence(old_, refs)
  {
    evidence := old_;
    var i := 0;
    while i < |refs|
      invariant 0 <= i <= |refs| && NewEvidence(evidence, refs[i..]) == NewEvidence(old_, refs)
    {
      assert refs[i..][0] == refs[i] && refs[i..][1..] == refs[i + 1..];
      if refs[i] !in evidence {
        evidence := evidence + [refs[i]];
      }
      i := i + 1;
    }
  }

  lemma FlatIsNormal(m: Aliases)
    requires Flat(m)
    ensures Acyclic(m) && forall x :: x in m ==> Leads(m, x, m[x].canonical)
  {
    forall x | x in m ensures Leads(m, x, m[x].canonical) {
      FlatLeads(m, x);
    }
  }

  lemma OneLinkFromFlat(m: Aliases, alias: string, target: string, refs: seq<string>)
    requires Flat(m) && alias !in m && target !in m && target != alias
    ensures var m' := m[alias := Alias(target, refs)];
      Acyclic(m') && forall x :: x in m' ==>
        Leads(m', x, if m'[x].canonical == alias then target else m'[x].canonical)
  {
    var m' := m[alias := Alias(target, refs)];
    forall x | x in m' ensures Leads(m', x, if m'[x].canonical == alias then target else m'[x].canonical) {
      if m'[x].canonical == alias {
        assert Chain(m', [x, alias, target], x, target);
      } else {
        assert Chain(m', [x, m'[x].canonical], x, m'[x].canonical);
      }
    }
  }

  /** The flattened map is determined by where the chains lead. */
  lemma NormalForm(m: Aliases, n: Aliases, expected: Aliases)
    requires n.Keys == m.Keys == expected.Keys
    requires forall x :: x in m ==> n[x].evidence == m[x].evidence == expected[x].evidence
    requires forall x :: x in m ==> Leads(m, x, n[x].canonical) && Leads(m, x, expected[x].canonical)
    ensures n == expected
  {
    forall x | x in m ensures n[x] == expected[x] {
      LeadsUnique(m, x, n[x].canonical, expected[x].canonical);
    }
  }
}
