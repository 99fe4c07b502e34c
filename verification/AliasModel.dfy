/** Supplier aliases: following a chain of aliases, flattening the chains, and
    the equivalence that approvals generate. */
module AliasModel {
  import opened Wrappers

  datatype Alias = Alias(canonical: string, evidence: seq<string>)

  type Aliases = map<string, Alias>

  datatype AliasError = BlankId | SameId | NoEvidence | WouldCycle | AlreadyMapped | AliasCycle

  // ---------- chains ----------

  /** p follows the aliases from p[0]; it may stop anywhere. */
  ghost predicate Follows(m: Aliases, p: seq<string>) {
    |p| >= 1 && forall k :: 0 <= k < |p| - 1 ==> p[k] in m && p[k + 1] == m[p[k]].canonical
  }

  /** p follows the aliases from x until r, which is no alias. */
  ghost predicate Chain(m: Aliases, p: seq<string>, x: string, r: string) {
    Follows(m, p) && p[0] == x && p[|p| - 1] == r && r !in m
  }

  ghost predicate Leads(m: Aliases, x: string, r: string) {
    exists p :: Chain(m, p, x, r)
  }

  /** Every id leads to a canonical id. */
  ghost predicate Acyclic(m: Aliases) {
    forall x :: x in m ==> exists r :: Leads(m, x, r)
  }

  /** No alias points to another alias. */
  predicate Flat(m: Aliases) {
    forall x :: x in m ==> m[x].canonical !in m
  }

  function Canon(m: Aliases, x: string): string {
    if x in m then m[x].canonical else x
  }

  lemma FlatLeads(m: Aliases, x: string)
    requires Flat(m)
    ensures Leads(m, x, Canon(m, x))
  {
    if x in m {
      assert Chain(m, [x, m[x].canonical], x, m[x].canonical);
    } else {
      assert Chain(m, [x], x, x);
    }
  }

  /** Following is deterministic. */
  lemma {:induction false} FollowsAgree(m: Aliases, p: seq<string>, q: seq<string>, k: nat)
    requires Follows(m, p) && Follows(m, q) && p[0] == q[0] && k < |p| && k < |q|
    ensures p[k] == q[k]
  {
    if k > 0 {
      FollowsAgree(m, p, q, k - 1);
    }
  }

  lemma ChainUnique(m: Aliases, p: seq<string>, q: seq<string>, x: string, r: string, t: string)
    requires Chain(m, p, x, r) && Chain(m, q, x, t)
    ensures |p| == |q| && r == t
  {
    FollowsAgree(m, p, q, if |p| <= |q| then |p| - 1 else |q| - 1);
  }

  lemma LeadsUnique(m: Aliases, x: string, r: string, t: string)
    requires Leads(m, x, r) && Leads(m, x, t)
    ensures r == t
  {
    var p :| Chain(m, p, x, r);
    var q :| Chain(m, q, x, t);
    ChainUnique(m, p, q, x, r, t);
  }

  /** A walk that returns to where it has been has no end. */
  lemma ReturnHasNoEnd(m: Aliases, p: seq<string>, j: nat, r: string)
    requires Follows(m, p) && j < |p| - 1 && p[j] == p[|p| - 1]
    ensures !Leads(m, p[0], r)
  {
    if Leads(m, p[0], r) {
      var q :| Chain(m, q, p[0], r);
      if |q| < |p| {
        FollowsAgree(m, p, q, |q| - 1);
      } else {
        var tail := q[|p| - 1..];
        FollowsAgree(m, p, q, |p| - 1);
        FollowsAgree(m, p, q, j);
        assert Chain(m, tail, p[j], r);
        var longer := q[j..];
        assert Chain(m, longer, p[j], r);
        ChainUnique(m, tail, longer, p[j], r, r);
      }
    }
  }

  /** Where a chain goes through a, it ends where a does. */
  lemma ChainThrough(m: Aliases, p: seq<string>, x: string, r: string, k: nat)
    requires Chain(m, p, x, r) && k < |p|
    ensures Leads(m, p[k], r)
  {
    assert Chain(m, p[k..], p[k], r);
  }

  /** Pointing an alias straight at its canonical id leaves every chain's end
      alone, and creates no new ones. */
  lemma CompressKeepsEnds(m: Aliases, a: string, r: string, x: string, t: string)
    requires a in m && Leads(m, a, r)
    ensures Leads(m[a := m[a].(canonical := r)], x, t) <==> Leads(m, x, t)
  {
    if Leads(m, x, t) {
      CompressKeepsLeads(m, a, r, x, t);
    }
    var m' := m[a := m[a].(canonical := r)];
    if Leads(m', x, t) {
      var p :| Chain(m', p, x, t);
      CompressBack(m, a, r, p, x, t);
    }
  }

  lemma CompressKeepsLeads(m: Aliases, a: string, r: string, x: string, t: string)
    requires a in m && Leads(m, a, r) && Leads(m, x, t)
    ensures Leads(m[a := m[a].(canonical := r)], x, t)
  {
    var m' := m[a := m[a].(canonical := r)];
    var p :| Chain(m, p, x, t);
    if a in p[..|p| - 1] {
      var k :| 0 <= k < |p| - 1 && p[k] == a;
      ChainThrough(m, p, x, t, k);
      LeadsUnique(m, a, r, t);
      var first := FirstIndex(p, a);
      var q := p[..first + 1] + [r];
      assert Chain(m', q, x, t);
    } else {
      assert forall k :: 0 <= k < |p| - 1 ==> p[k] != a by {
        assert forall k :: 0 <= k < |p| - 1 ==> p[k] == p[..|p| - 1][k];
      }
      assert Chain(m', p, x, t);
    }
  }

  function FirstIndex(p: seq<string>, a: string): (i: nat)
    requires a in p
    ensures i < |p| && p[i] == a && forall k :: 0 <= k < i ==> p[k] != a
  {
    if p[0] == a then 0 else 1 + FirstIndex(p[1..], a)
  }

  lemma {:induction false} CompressBack(m: Aliases, a: string, r: string, p: seq<string>, x: string, t: string)
    requires a in m && Leads(m, a, r) && Chain(m[a := m[a].(canonical := r)], p, x, t)
    ensures Leads(m, x, t)
    decreases |p|
  {
    var m' := m[a := m[a].(canonical := r)];
    if |p| == 1 {
      assert Chain(m, p, x, t);
    } else if x == a {
      assert r !in m && p[1] == r;
      assert |p| == 2;
    } else {
      assert Chain(m', p[1..], p[1], t);
      CompressBack(m, a, r, p[1..], p[1], t);
      var q :| Chain(m, q, p[1], t);
      assert Chain(m, [x] + q, x, t);
    }
  }

  // ---------- the equivalence generated by approvals ----------

  type Pairs = set<(string, string)>

  /** A walk along approved pairs, in either direction. */
  ghost predicate Path(e: Pairs, p: seq<string>, a: string, b: string) {
    |p| >= 1 && p[0] == a && p[|p| - 1] == b
    && forall k :: 0 <= k < |p| - 1 ==> (p[k], p[k + 1]) in e || (p[k + 1], p[k]) in e
  }

  ghost predicate Linked(e: Pairs, a: string, b: string) {
    exists p :: Path(e, p, a, b)
  }

  lemma LinkedSelf(e: Pairs, a: string)
    ensures Linked(e, a, a)
  {
    assert Path(e, [a], a, a);
  }

  lemma LinkedSymmetric(e: Pairs, a: string, b: string)
    requires Linked(e, a, b)
    ensures Linked(e, b, a)
  {
    var p :| Path(e, p, a, b);
    var q := seq(|p|, k requires 0 <= k < |p| => p[|p| - 1 - k]);
    assert Path(e, q, b, a);
  }

  lemma LinkedTransitive(e: Pairs, a: string, b: string, c: string)
    requires Linked(e, a, b) && Linked(e, b, c)
    ensures Linked(e, a, c)
  {
    var p :| Path(e, p, a, b);
    var q :| Path(e, q, b, c);
    var r := p + q[1..];
    forall k | 0 <= k < |r| - 1 ensures (r[k], r[k + 1]) in e || (r[k + 1], r[k]) in e {
      if k >= |p| - 1 {
        assert r[k] == q[k - (|p| - 1)] && r[k + 1] == q[k + 1 - (|p| - 1)];
      }
    }
    assert Path(e, r, a, c);
  }

  lemma LinkedMore(e: Pairs, e': Pairs, a: string, b: string)
    requires e <= e' && Linked(e, a, b)
    ensures Linked(e', a, b)
  {
    var p :| Path(e, p, a, b);
    assert Path(e', p, a, b);
  }

  lemma LinkedPair(e: Pairs, a: string, b: string)
    requires (a, b) in e
    ensures Linked(e, a, b)
  {
    assert Path(e, [a, b], a, b);
  }

  /** Two ids have one canonical id exactly when approvals link them. */
  ghost predicate Represents(m: Aliases, e: Pairs) {
    forall a, b :: Canon(m, a) == Canon(m, b) <==> Linked(e, a, b)
  }

  lemma {:induction false} PathKeepsCanon(m: Aliases, e: Pairs, p: seq<string>, a: string, b: string)
    requires Path(e, p, a, b)
    requires forall x, y :: (x, y) in e ==> Canon(m, x) == Canon(m, y)
    ensures Canon(m, a) == Canon(m, b)
    decreases |p|
  {
    if |p| > 1 {
      assert Path(e, p[1..], p[1], b);
      PathKeepsCanon(m, e, p[1..], p[1], b);
      assert (p[0], p[0 + 1]) in e || (p[0 + 1], p[0]) in e;
    }
  }

  // ---------- approvals ----------

  /** What flattening does to a flat map once `alias` points at target. */
  function Redirected(m: Aliases, alias: string, target: string): Aliases {
    map x | x in m :: if m[x].canonical == alias then m[x].(canonical := target) else m[x]
  }

  /** Evidence already on record is kept; each new reference is added once. */
  function NewEvidence(old_: seq<string>, refs: seq<string>): (r: seq<string>)
    ensures |old_| <= |r| && r[..|old_|] == old_
    ensures forall x :: x in r <==> x in old_ || x in refs
    decreases |refs|
  {
    if refs == [] then old_
    else if refs[0] in old_ then NewEvidence(old_, refs[1..])
    else NewEvidence(old_ + [refs[0]], refs[1..])
  }

  function Approve(m: Aliases, alias: string, canonical: string, refs: seq<string>): Result<Aliases, AliasError> {
    if alias == "" || canonical == "" then Failure(BlankId)
    else if alias == canonical then Failure(SameId)
    else if refs == [] then Failure(NoEvidence)
    else
      var target := Canon(m, canonical);
      if target == alias then Failure(WouldCycle)
      else if alias in m then
        if Canon(m, alias) != target then Failure(AlreadyMapped)
        else Success(m[alias := m[alias].(evidence := NewEvidence(m[alias].evidence, refs))])
      else Success(Redirected(m, alias, target)[alias := Alias(target, refs)])
  }

  lemma ApproveCanon(m: Aliases, alias: string, canonical: string, refs: seq<string>, x: string)
    requires Flat(m) && Approve(m, alias, canonical, refs).Success?
    ensures var m' := Approve(m, alias, canonical, refs).value;
      && Flat(m')
      && Canon(m', x) == if Canon(m, x) == Canon(m, alias) then Canon(m, canonical) else Canon(m, x)
  {
  }

  /** What an approval does to a flat registry. It is accepted unless it is
      malformed, would make the alias an alias of itself, or contradicts where the
      alias leads already; then the class of the alias follows the canonical id of
      the other one, the references are added to the alias's evidence, and all
      other evidence stays. */
  ghost predicate ApproveHolds(m: Aliases, alias: string, canonical: string, refs: seq<string>,
                               r: Result<Aliases, AliasError>) {
    var wellFormed := alias != "" && canonical != "" && alias != canonical && refs != [];
    && (r == Failure(BlankId) <==> alias == "" || canonical == "")
    && (r == Failure(SameId) <==> alias != "" && alias == canonical)
    && (r == Failure(NoEvidence) <==> alias != "" && canonical != "" && alias != canonical && refs == [])
    && (r == Failure(WouldCycle) <==> wellFormed && Canon(m, canonical) == alias)
    && (r == Failure(AlreadyMapped) <==>
          wellFormed && Canon(m, canonical) != alias && alias in m && Canon(m, alias) != Canon(m, canonical))
    && r != Failure(AliasCycle)
    && (r.Success? ==>
          && r.value.Keys == m.Keys + {alias}
          && (forall x :: Canon(r.value, x)
                == if Canon(m, x) == Canon(m, alias) then Canon(m, canonical) else Canon(m, x))
          && (forall x :: x in m && x != alias ==> r.value[x].evidence == m[x].evidence)
          && EvidenceAdded(if alias in m then m[alias].evidence else [], refs, r.value[alias].evidence)
          && (alias !in m ==> r.value[alias].evidence == refs)
          && (alias in m && Distinct(m[alias].evidence) ==> Distinct(r.value[alias].evidence)))
  }

  ghost predicate EvidenceAdded(old_: seq<string>, refs: seq<string>, new_: seq<string>) {
    |old_| <= |new_| && new_[..|old_|] == old_ && forall x :: x in new_ <==> x in old_ || x in refs
  }

  predicate Distinct(xs: seq<string>) {
    forall i, j :: 0 <= i < j < |xs| ==> xs[i] != xs[j]
  }

  lemma {:induction false} AddedOnce(old_: seq<string>, refs: seq<string>)
    ensures Distinct(old_) ==> Distinct(NewEvidence(old_, refs))
    decreases |refs|
  {
    if refs != [] {
      AddedOnce(if refs[0] in old_ then old_ else old_ + [refs[0]], refs[1..]);
    }
  }

  lemma ApproveEffects(m: Aliases, alias: string, canonical: string, refs: seq<string>)
    requires Flat(m)
    ensures ApproveHolds(m, alias, canonical, refs, Approve(m, alias, canonical, refs))
  {
    if Approve(m, alias, canonical, refs).Success? {
      if alias in m {
        AddedOnce(m[alias].evidence, refs);
      }
      forall x {
        ApproveCanon(m, alias, canonical, refs, x);
      }
    }
  }

  /** An accepted approval merges exactly the two classes it names. */
  lemma ApproveRepresents(m: Aliases, e: Pairs, alias: string, canonical: string, refs: seq<string>)
    requires Flat(m) && Represents(m, e) && Approve(m, alias, canonical, refs).Success?
    ensures var m' := Approve(m, alias, canonical, refs).value;
      Flat(m') && Represents(m', e + {(alias, canonical)})
  {
    var m' := Approve(m, alias, canonical, refs).value;
    var e' := e + {(alias, canonical)};
    ApproveCanon(m, alias, canonical, refs, alias);
    forall a, b ensures Canon(m', a) == Canon(m', b) <==> Linked(e', a, b) {
      MergeExact(m, m', e, alias, canonical, refs, a, b);
    }
  }

  lemma MergeExact(m: Aliases, m': Aliases, e: Pairs, alias: string, canonical: string, refs: seq<string>,
                   a: string, b: string)
    requires Flat(m) && Represents(m, e) && Approve(m, alias, canonical, refs) == Success(m')
    ensures Canon(m', a) == Canon(m', b) <==> Linked(e + {(alias, canonical)}, a, b)
  {
    hide Approve, Flat, Canon, Linked;
    var e' := e + {(alias, canonical)};
    forall x ensures Canon(m', x) == if Canon(m, x) == Canon(m, alias) then Canon(m, canonical) else Canon(m, x) {
      ApproveCanon(m, alias, canonical, refs, x);
    }
    if Linked(e', a, b) {
      forall x, y | (x, y) in e' ensures Canon(m', x) == Canon(m', y) {
        if (x, y) in e {
          LinkedPair(e, x, y);
        }
      }
      LinkedKeepsCanon(m', e', a, b);
    }
    if Canon(m', a) == Canon(m', b) {
      LinkedPair(e', alias, canonical);
      ToAlias(m, e, e', alias, canonical, a);
      ToAlias(m, e, e', alias, canonical, b);
      if Canon(m, a) == Canon(m, b) {
        LinkedMore(e, e', a, b);
      } else {
        assert Linked(e', a, alias) && Linked(e', b, alias);
        LinkedSymmetric(e', b, alias);
        LinkedTransitive(e', a, alias, b);
      }
    }
  }

  lemma LinkedKeepsCanon(m: Aliases, e: Pairs, a: string, b: string)
    requires Linked(e, a, b) && forall x, y :: (x, y) in e ==> Canon(m, x) == Canon(m, y)
    ensures Canon(m, a) == Canon(m, b)
  {
    var p :| Path(e, p, a, b);
    PathKeepsCanon(m, e, p, a, b);
  }

  /** Members of either merged class are linked to the alias. */
  lemma ToAlias(m: Aliases, e: Pairs, e': Pairs, alias: string, canonical: string, a: string)
    requires Represents(m, e) && e <= e' && Linked(e', alias, canonical)
    ensures Canon(m, a) == Canon(m, alias) || Canon(m, a) == Canon(m, canonical) ==> Linked(e', a, alias)
  {
    hide Linked, Canon;
    if Canon(m, a) == Canon(m, alias) {
      LinkedMore(e, e', a, alias);
    } else if Canon(m, a) == Canon(m, canonical) {
      LinkedMore(e, e', a, canonical);
      LinkedSymmetric(e', alias, canonical);
      LinkedTransitive(e', a, canonical, alias);
    }
  }

  // ---------- runs ----------

  datatype Approval = Approval(alias: string, canonical: string, refs: seq<string>)

  /** The registry and the pairs accepted so far. */
  function Step(m: Aliases, e: Pairs, op: Approval): (Aliases, Pairs) {
    var r := Approve(m, op.alias, op.canonical, op.refs);
    if r.Success? then (r.value, e + {(op.alias, op.canonical)}) else (m, e)
  }

  function Run(m: Aliases, e: Pairs, ops: seq<Approval>): (Aliases, Pairs)
    decreases |ops|
  {
    if ops == [] then (m, e) else Run(Step(m, e, ops[0]).0, Step(m, e, ops[0]).1, ops[1..])
  }

  lemma {:induction false} RunRepresents(m: Aliases, e: Pairs, ops: seq<Approval>)
    requires Flat(m) && Represents(m, e)
    ensures Flat(Run(m, e, ops).0) && Represents(Run(m, e, ops).0, Run(m, e, ops).1)
    decreases |ops|
  {
    hide Flat, Represents, Approve;
    if ops != [] {
      var op := ops[0];
      if Approve(m, op.alias, op.canonical, op.refs).Success? {
        ApproveRepresents(m, e, op.alias, op.canonical, op.refs);
      }
      RunRepresents(Step(m, e, op).0, Step(m, e, op).1, ops[1..]);
    }
  }

  /** After any approvals, accepted or rejected, the registry is flat and two ids
      share a canonical id exactly when the accepted pairs link them. */
  lemma RegistryIsClosure(ops: seq<Approval>, a: string, b: string)
    ensures var (m, e) := Run(map[], {}, ops);
      && Flat(m) && (Canon(m, a) == Canon(m, b) <==> Linked(e, a, b))
      && Canon(m, Canon(m, a)) == Canon(m, a) && Leads(m, a, Canon(m, a))
  {
    EmptyRepresents();
    RunRepresents(map[], {}, ops);
    var (m, e) := Run(map[], {}, ops);
    FlatLeads(m, a);
  }

  lemma EmptyRepresents()
    ensures Flat(map[]) && Represents(map[], {})
  {
    forall a: string, b: string ensures Canon(map[], a) == Canon(map[], b) <==> Linked({}, a, b) {
      LinkedSelf({}, a);
      if Linked({}, a, b) {
        LinkedKeepsCanon(map[], {}, a, b);
      }
    }
  }
}
