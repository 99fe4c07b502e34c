/** Leak-free benchmark splits: tasks that share a site or supplier family,
    directly or through other tasks, always land on the same side. */
module GroupSplit {
  import opened Wrappers
  import opened DisjointSets
  import opened SeqLemmas

  datatype Family = Site(name: string) | Supplier(name: string)

  datatype Task = Task(id: string, sites: seq<string>, suppliers: seq<string>)

  datatype SplitError = BadFraction | OneComponent

  /** Positions of the tasks on each side. */
  datatype Split = Split(calibration: seq<nat>, untouched: seq<nat>, components: nat)

  function Families(t: Task): seq<Family> {
    seq(|t.sites|, i requires 0 <= i < |t.sites| => Site(t.sites[i]))
    + seq(|t.suppliers|, i requires 0 <= i < |t.suppliers| => Supplier(t.suppliers[i]))
  }

  // ---------- the relation the split must respect ----------

  /** Two tasks name one site, or one supplier. */
  ghost predicate Share(a: Task, b: Task) {
    (exists n :: n in a.sites && n in b.sites) || exists n :: n in a.suppliers && n in b.suppliers
  }

  /** The keys of a task are its sites and its suppliers, all of them and told
      apart. */
  lemma FamiliesAre(t: Task, f: Family)
    ensures f in Families(t) <==>
      match f case Site(n) => n in t.sites case Supplier(n) => n in t.suppliers
  {
    match f
    case Site(n) =>
      if n in t.sites {
        var i :| 0 <= i < |t.sites| && t.sites[i] == n;
        assert Families(t)[i] == f;
      }
    case Supplier(n) =>
      if n in t.suppliers {
        var i :| 0 <= i < |t.suppliers| && t.suppliers[i] == n;
        assert Families(t)[|t.sites| + i] == f;
      }
  }

  lemma ShareIsFamily(a: Task, b: Task)
    ensures Share(a, b) <==> exists f :: f in Families(a) && f in Families(b)
  {
    hide Families;
    if n :| n in a.sites && n in b.sites {
      FamiliesAre(a, Site(n));
      FamiliesAre(b, Site(n));
    }
    if n :| n in a.suppliers && n in b.suppliers {
      FamiliesAre(a, Supplier(n));
      FamiliesAre(b, Supplier(n));
    }
    if f :| f in Families(a) && f in Families(b) {
      FamiliesAre(a, f);
      FamiliesAre(b, f);
    }
  }

  /** A chain of tasks in which neighbours share a family. */
  ghost predicate Walk(tasks: seq<Task>, p: seq<nat>) {
    |p| >= 1 && (forall k :: 0 <= k < |p| ==> p[k] < |tasks|)
    && forall k :: 0 <= k < |p| - 1 ==> Share(tasks[p[k]], tasks[p[k + 1]])
  }

  ghost predicate Joins(tasks: seq<Task>, p: seq<nat>, i: nat, j: nat) {
    Walk(tasks, p) && p[0] == i && p[|p| - 1] == j
  }

  /** i and j are in one connected component. */
  ghost predicate Linked(tasks: seq<Task>, i: nat, j: nat) {
    exists p :: Joins(tasks, p, i, j)
  }

  lemma LinkedSelf(tasks: seq<Task>, i: nat)
    requires i < |tasks|
    ensures Linked(tasks, i, i)
  {
    assert Joins(tasks, [i], i, i);
  }

  lemma LinkedByFamily(tasks: seq<Task>, i: nat, j: nat, f: Family)
    requires i < |tasks| && j < |tasks| && f in Families(tasks[i]) && f in Families(tasks[j])
    ensures Linked(tasks, i, j)
  {
    ShareIsFamily(tasks[i], tasks[j]);
    assert Joins(tasks, [i, j], i, j);
  }

  lemma LinkedTransitive(tasks: seq<Task>, i: nat, j: nat, k: nat)
    requires Linked(tasks, i, j) && Linked(tasks, j, k)
    ensures Linked(tasks, i, k)
  {
    var p :| Joins(tasks, p, i, j);
    var q :| Joins(tasks, q, j, k);
    var r := p + q[1..];
    forall m | 0 <= m < |r| - 1 ensures Share(tasks[r[m]], tasks[r[m + 1]]) {
      if m >= |p| - 1 {
        assert r[m] == q[m - (|p| - 1)] && r[m + 1] == q[m + 1 - (|p| - 1)];
      }
    }
    assert Joins(tasks, r, i, k);
  }

  lemma LinkedSymmetric(tasks: seq<Task>, i: nat, j: nat)
    requires Linked(tasks, i, j)
    ensures Linked(tasks, j, i)
  {
    var p :| Joins(tasks, p, i, j);
    var r := seq(|p|, k requires 0 <= k < |p| => p[|p| - 1 - k]);
    forall m | 0 <= m < |r| - 1 ensures Share(tasks[r[m]], tasks[r[m + 1]]) {
      assert Share(tasks[p[|p| - 2 - m]], tasks[p[|p| - 1 - m]]);
    }
    assert Joins(tasks, r, j, i);
  }

  /** A labelling that agrees on sharing tasks agrees on whole components. */
  lemma {:induction false} LabelsFollowWalks(tasks: seq<Task>, labels: seq<nat>, p: seq<nat>)
    requires |labels| == |tasks| && Walk(tasks, p)
    requires forall i, j :: 0 <= i < |tasks| && 0 <= j < |tasks| && Share(tasks[i], tasks[j]) ==> labels[i] == labels[j]
    ensures labels[p[0]] == labels[p[|p| - 1]]
    decreases |p|
  {
    if |p| > 1 {
      var q := p[1..];
      forall k | 0 <= k < |q| - 1 ensures Share(tasks[q[k]], tasks[q[k + 1]]) {
        assert Share(tasks[p[k + 1]], tasks[p[k + 2]]);
      }
      LabelsFollowWalks(tasks, labels, q);
      assert Share(tasks[p[0]], tasks[p[0 + 1]]);
    }
  }

  // ---------- building the components ----------

  /** Labels only ever join tasks of one component. */
  ghost predicate Sound(tasks: seq<Task>, rs: seq<nat>) {
    |rs| == |tasks|
    && forall i, j :: 0 <= i < |rs| && 0 <= j < |rs| && rs[i] == rs[j] ==> Linked(tasks, i, j)
  }

  /** The family at position k of task i carries the label of its owner. */
  ghost predicate Settled(tasks: seq<Task>, owners: map<Family, nat>, rs: seq<nat>, i: nat, k: nat)
    requires i < |tasks| == |rs| && k < |Families(tasks[i])|
  {
    var f := Families(tasks[i])[k];
    f in owners && owners[f] < |rs| && rs[i] == rs[owners[f]]
  }

  /** Everything before family m of task n has been processed. */
  ghost predicate Progress(tasks: seq<Task>, owners: map<Family, nat>, rs: seq<nat>, n: nat, m: nat) {
    && Sound(tasks, rs)
    && (forall f :: f in owners ==> owners[f] < |tasks| && f in Families(tasks[owners[f]]))
    && forall i: nat, k: nat :: i < |tasks| && k < |Families(tasks[i])| && (i < n || (i == n && k < m)) ==>
         Settled(tasks, owners, rs, i, k)
  }

  lemma ProgressStart(tasks: seq<Task>, rs: seq<nat>)
    requires |rs| == |tasks| && forall i :: 0 <= i < |rs| ==> rs[i] == i
    ensures Progress(tasks, map[], rs, 0, 0)
  {
    forall i: nat | i < |tasks| ensures Linked(tasks, i, i) {
      LinkedSelf(tasks, i);
    }
  }

  lemma ProgressOwner(tasks: seq<Task>, owners: map<Family, nat>, rs: seq<nat>, n: nat, m: nat)
    requires Progress(tasks, owners, rs, n, m) && n < |tasks| && m < |Families(tasks[n])|
    requires Families(tasks[n])[m] !in owners
    ensures Progress(tasks, owners[Families(tasks[n])[m] := n], rs, n, m + 1)
  {
    var owners' := owners[Families(tasks[n])[m] := n];
    forall i: nat, k: nat | i < |tasks| && k < |Families(tasks[i])| && (i < n || (i == n && k < m + 1))
      ensures Settled(tasks, owners', rs, i, k)
    {
      if i < n || k < m {
        assert Settled(tasks, owners, rs, i, k);
      }
    }
  }

  lemma ProgressMerge(tasks: seq<Task>, owners: map<Family, nat>, was: seq<nat>, now: seq<nat>, n: nat, m: nat)
    requires Progress(tasks, owners, was, n, m) && n < |tasks| && m < |Families(tasks[n])|
    requires Families(tasks[n])[m] in owners && |now| == |was|
    requires var b := owners[Families(tasks[n])[m]];
      forall j :: 0 <= j < |was| ==> now[j] == if was[j] == was[b] then was[n] else was[j]
    ensures Progress(tasks, owners, now, n, m + 1)
  {
    var f := Families(tasks[n])[m];
    LinkedByFamily(tasks, n, owners[f], f);
    MergeIsSound(tasks, was, now, n, owners[f]);
    forall i: nat, k: nat | i < |tasks| && k < |Families(tasks[i])| && (i < n || (i == n && k < m + 1))
      ensures Settled(tasks, owners, now, i, k)
    {
      if i < n || k < m {
        assert Settled(tasks, owners, was, i, k);
      }
    }
  }

  /** Merging the classes of two linked tasks stays inside components. */
  lemma MergeIsSound(tasks: seq<Task>, was: seq<nat>, now: seq<nat>, a: nat, b: nat)
    requires Sound(tasks, was) && |now| == |was| && a < |was| && b < |was| && Linked(tasks, a, b)
    requires forall j :: 0 <= j < |was| ==> now[j] == if was[j] == was[b] then was[a] else was[j]
    ensures Sound(tasks, now)
  {
    LinkedSymmetric(tasks, a, b);
    forall i: nat, j: nat | i < |now| && j < |now| && now[i] == now[j] ensures Linked(tasks, i, j) {
      if was[i] != was[j] {
        if was[i] == was[b] {
          LinkedTransitive(tasks, i, b, a);
          LinkedTransitive(tasks, i, a, j);
        } else {
          LinkedTransitive(tasks, i, a, b);
          LinkedTransitive(tasks, i, b, j);
        }
      }
    }
  }

  /** Once every family is settled the labels are exactly the components. */
  lemma SettledIsExact(tasks: seq<Task>, owners: map<Family, nat>, rs: seq<nat>)
    requires Progress(tasks, owners, rs, |tasks|, 0)
    ensures forall i: nat, j: nat :: i < |tasks| && j < |tasks| ==> (rs[i] == rs[j] <==> Linked(tasks, i, j))
  {
    forall i, j | 0 <= i < |tasks| && 0 <= j < |tasks| && Share(tasks[i], tasks[j]) ensures rs[i] == rs[j] {
      ShareIsFamily(tasks[i], tasks[j]);
      var f :| f in Families(tasks[i]) && f in Families(tasks[j]);
      var k :| 0 <= k < |Families(tasks[i])| && Families(tasks[i])[k] == f;
      var m :| 0 <= m < |Families(tasks[j])| && Families(tasks[j])[m] == f;
      assert Settled(tasks, owners, rs, i, k) && Settled(tasks, owners, rs, j, m);
    }
    forall i: nat, j: nat | i < |tasks| && j < |tasks| && Linked(tasks, i, j) ensures rs[i] == rs[j] {
      var p :| Joins(tasks, p, i, j);
      LabelsFollowWalks(tasks, rs, p);
    }
  }

  method Connect(tasks: seq<Task>) returns (parents: array<nat>, ghost rank: seq<nat>)
    ensures fresh(parents) && parents.Length == |tasks| && Forest(parents[..], rank)
    ensures forall i: nat, j: nat :: i < |tasks| && j < |tasks| ==>
      (Roots(parents[..], rank)[i] == Roots(parents[..], rank)[j] <==> Linked(tasks, i, j))
  {
    hide Progress, Families, Linked;
    parents := new nat[|tasks|](i => i);
    rank := seq(|tasks|, i => 0);
    var owners: map<Family, nat> := map[];
    ProgressStart(tasks, Roots(parents[..], rank));
    var index := 0;
    while index < |tasks|
      invariant 0 <= index <= |tasks| == parents.Length && fresh(parents)
      invariant Forest(parents[..], rank) && Progress(tasks, owners, Roots(parents[..], rank), index, 0)
    {
      var families := Families(tasks[index]);
      var m := 0;
      while m < |families|
        invariant 0 <= m <= |families|
        invariant Forest(parents[..], rank) && Progress(tasks, owners, Roots(parents[..], rank), index, m)
      {
        var family := families[m];
        if family in owners {
          OwnerInRange(tasks, owners, Roots(parents[..], rank), index, m, family);
          ghost var was := Roots(parents[..], rank);
          rank := Union(parents, rank, index, owners[family]);
          ProgressMerge(tasks, owners, was, Roots(parents[..], rank), index, m);
        } else {
          ProgressOwner(tasks, owners, Roots(parents[..], rank), index, m);
          owners := owners[family := index];
        }
        m := m + 1;
      }
      NextTask(tasks, owners, Roots(parents[..], rank), index, m);
      index := index + 1;
    }
    SettledIsExact(tasks, owners, Roots(parents[..], rank));
  }

  lemma OwnerInRange(tasks: seq<Task>, owners: map<Family, nat>, rs: seq<nat>, n: nat, m: nat, f: Family)
    ensures Progress(tasks, owners, rs, n, m) && f in owners ==> owners[f] < |tasks|
  {
  }

  lemma NextTask(tasks: seq<Task>, owners: map<Family, nat>, rs: seq<nat>, n: nat, m: nat)
    requires Progress(tasks, owners, rs, n, m) && n < |tasks| && m == |Families(tasks[n])|
    ensures Progress(tasks, owners, rs, n + 1, 0)
  {
  }

  // ---------- grouping ----------

  function Flatten(groups: seq<seq<nat>>): seq<nat> {
    if groups == [] then [] else groups[0] + Flatten(groups[1..])
  }

  function Range(n: nat): (r: seq<nat>)
    ensures |r| == n && forall i :: 0 <= i < n ==> r[i] == i
  {
    seq(n, i => i)
  }

  lemma {:induction false} FlattenGrow(groups: seq<seq<nat>>, g: nat, x: nat)
    requires g < |groups|
    ensures multiset(Flatten(groups[g := groups[g] + [x]])) == multiset(Flatten(groups)) + multiset{x}
  {
    if g > 0 {
      FlattenGrow(groups[1..], g - 1, x);
      assert groups[g := groups[g] + [x]][1..] == groups[1..][g - 1 := groups[g] + [x]];
    } else {
      assert groups[g := groups[g] + [x]][1..] == groups[1..];
    }
  }

  lemma {:induction false} FlattenAppend(groups: seq<seq<nat>>, group: seq<nat>)
    ensures Flatten(groups + [group]) == Flatten(groups) + group
  {
    if groups == [] {
      assert groups + [group] == [group] && [group][1..] == [];
    } else {
      assert (groups + [group])[1..] == groups[1..] + [group];
      FlattenAppend(groups[1..], group);
    }
  }

  lemma {:induction false} FlattenRemove(groups: seq<seq<nat>>, k: nat)
    requires k < |groups|
    ensures multiset(Flatten(groups)) == multiset(groups[k]) + multiset(Flatten(groups[..k] + groups[k + 1..]))
  {
    if k == 0 {
      assert groups[..0] + groups[1..] == groups[1..];
    } else {
      FlattenRemove(groups[1..], k - 1);
      assert groups[1..][..k - 1] + groups[1..][k - 1 + 1..] == (groups[..k] + groups[k + 1..])[1..];
    }
  }

  lemma FlattenFirst(groups: seq<seq<nat>>)
    ensures groups == [] ==> Flatten(groups) == []
    ensures groups != [] ==> Flatten(groups) == groups[0] + Flatten(groups[1..])
  {
  }

  lemma {:induction false} FlattenPermutation(a: seq<seq<nat>>, b: seq<seq<nat>>)
    requires multiset(a) == multiset(b)
    ensures multiset(Flatten(a)) == multiset(Flatten(b))
    decreases |a|
  {
    hide Flatten;
    if a == [] {
      EmptyPermutation(a, b);
    } else {
      var n := |a| - 1;
      var k := MatchLast(a, b);
      FlattenRemove(b, k);
      FlattenPermutation(a[..n], b[..k] + b[k + 1..]);
      FlattenAppend(a[..n], a[n]);
      assert a == a[..n] + [a[n]];
    }
  }

  ghost predicate IsComponent(tasks: seq<Task>, group: seq<nat>) {
    group != [] && forall i: nat, j: nat :: i in group ==> i < |tasks| && (j in group <==> Linked(tasks, i, j))
  }

  /** Each task is in exactly one group, and the groups are the components. */
  ghost predicate AreComponents(tasks: seq<Task>, groups: seq<seq<nat>>) {
    && multiset(Flatten(groups)) == multiset(Range(|tasks|))
    && forall g :: 0 <= g < |groups| ==> IsComponent(tasks, groups[g])
  }

  /** Position of a key in an insertion-ordered dictionary; |keys| when absent. */
  function IndexOf(keys: seq<nat>, key: nat): (g: nat)
    ensures g <= |keys| && (g < |keys| ==> keys[g] == key) && (g == |keys| ==> key !in keys)
  {
    if keys == [] || keys[0] == key then 0 else 1 + IndexOf(keys[1..], key)
  }

  /** The group is non-empty and holds exactly the tasks below t with this label. */
  ghost predicate HoldsLabel(rs: seq<nat>, t: nat, key: nat, group: seq<nat>)
    requires t <= |rs|
  {
    group != [] && forall x: nat :: x in group <==> x < t && rs[x] == key
  }

  /** The dictionary holds tasks 0..t grouped by label. */
  ghost predicate Grouped(rs: seq<nat>, keys: seq<nat>, groups: seq<seq<nat>>, t: nat) {
    && |keys| == |groups| && t <= |rs|
    && (forall g, h :: 0 <= g < h < |keys| ==> keys[g] != keys[h])
    && (forall g :: 0 <= g < |groups| ==> HoldsLabel(rs, t, keys[g], groups[g]))
    && multiset(Flatten(groups)) == multiset(Range(t))
  }

  lemma HoldsLabelStep(rs: seq<nat>, t: nat, key: nat, group: seq<nat>)
    requires t < |rs| && HoldsLabel(rs, t, key, group)
    ensures HoldsLabel(rs, t + 1, key, if rs[t] == key then group + [t] else group)
  {
  }

  lemma GroupedOld(rs: seq<nat>, keys: seq<nat>, groups: seq<seq<nat>>, t: nat, g: nat)
    requires Grouped(rs, keys, groups, t) && t < |rs| && g < |keys| && keys[g] == rs[t]
    ensures Grouped(rs, keys, groups[g := groups[g] + [t]], t + 1)
  {
    hide Flatten, HoldsLabel;
    FlattenGrow(groups, g, t);
    RangeStep(t);
    forall h | 0 <= h < |groups| ensures HoldsLabel(rs, t + 1, keys[h], groups[g := groups[g] + [t]][h]) {
      HoldsLabelStep(rs, t, keys[h], groups[h]);
    }
  }

  lemma GroupedNew(rs: seq<nat>, keys: seq<nat>, groups: seq<seq<nat>>, t: nat)
    requires Grouped(rs, keys, groups, t) && t < |rs| && rs[t] !in keys
    ensures Grouped(rs, keys + [rs[t]], groups + [[t]], t + 1)
  {
    hide Flatten;
    FlattenAppend(groups, [t]);
    RangeStep(t);
    forall x: nat | x < t ensures rs[x] != rs[t] {
      assert Range(t)[x] == x;
      assert x in multiset(Range(t));
      InSomeGroup(groups, x);
      var g :| 0 <= g < |groups| && x in groups[g];
      assert HoldsLabel(rs, t, keys[g], groups[g]);
    }
    assert HoldsLabel(rs, t + 1, rs[t], [t]);
    forall h | 0 <= h < |groups| ensures HoldsLabel(rs, t + 1, keys[h], groups[h]) {
      HoldsLabelStep(rs, t, keys[h], groups[h]);
    }
  }

  lemma RangeStep(t: nat)
    ensures multiset(Range(t + 1)) == multiset(Range(t)) + multiset{t}
  {
    assert Range(t + 1) == Range(t) + [t];
  }

  lemma {:induction false} InSomeGroup(groups: seq<seq<nat>>, x: nat)
    requires x in multiset(Flatten(groups))
    ensures exists g :: 0 <= g < |groups| && x in groups[g]
  {
    if groups != [] && x !in groups[0] {
      InSomeGroup(groups[1..], x);
      var g :| 0 <= g < |groups[1..]| && x in groups[1..][g];
      assert x in groups[g + 1];
    } else if groups != [] {
      assert 0 <= 0 < |groups| && x in groups[0];
    }
  }

  lemma GroupedIsComponents(tasks: seq<Task>, rs: seq<nat>, keys: seq<nat>, groups: seq<seq<nat>>)
    requires Grouped(rs, keys, groups, |tasks|) && |rs| == |tasks|
    requires forall i: nat, j: nat :: i < |tasks| && j < |tasks| ==> (rs[i] == rs[j] <==> Linked(tasks, i, j))
    ensures AreComponents(tasks, groups)
  {
    hide Linked, Flatten;
    forall g | 0 <= g < |groups| ensures IsComponent(tasks, groups[g]) {
      assert HoldsLabel(rs, |tasks|, keys[g], groups[g]);
      forall i: nat, j: nat | i in groups[g]
        ensures i < |tasks| && (j in groups[g] <==> Linked(tasks, i, j))
      {
        if Linked(tasks, i, j) {
          LinkedInRange(tasks, i, j);
        }
      }
    }
  }

  method Components(tasks: seq<Task>) returns (groups: seq<seq<nat>>)
    ensures AreComponents(tasks, groups)
  {
    hide Grouped, AreComponents, Linked;
    var parents, rank := Connect(tasks);
    ghost var rs := Roots(parents[..], rank);
    var keys: seq<nat> := [];
    groups := [];
    GroupedStart(rs);
    var index := 0;
    while index < |tasks|
      invariant 0 <= index <= |tasks| == parents.Length && fresh(parents)
      invariant Forest(parents[..], rank) && Roots(parents[..], rank) == rs
      invariant |keys| == |groups| && Grouped(rs, keys, groups, index)
    {
      var root := Find(parents, rank, index);
      var g := IndexOf(keys, root);
      if g < |keys| {
        GroupedOld(rs, keys, groups, index, g);
        groups := groups[g := groups[g] + [index]];
      } else {
        GroupedNew(rs, keys, groups, index);
        keys, groups := keys + [root], groups + [[index]];
      }
      index := index + 1;
    }
    GroupedIsComponents(tasks, rs, keys, groups);
  }

  lemma GroupedStart(rs: seq<nat>)
    ensures Grouped(rs, [], [], 0)
  {
  }

  // ---------- assigning groups to sides ----------

  lemma {:induction false} RangeOnce(n: nat, x: nat)
    ensures multiset(Range(n))[x] <= 1
  {
    if n > 0 {
      RangeOnce(n - 1, x);
      assert Range(n) == Range(n - 1) + [n - 1];
      assert n - 1 !in Range(n - 1);
      assert n - 1 !in multiset(Range(n - 1));
    }
  }

  /** A side is a union of whole components. */
  ghost predicate WholeComponents(tasks: seq<Task>, side: seq<nat>) {
    forall i, j: nat :: i in side && i < |tasks| && Linked(tasks, i, j) ==> j in side
  }

  lemma LinkedInRange(tasks: seq<Task>, i: nat, j: nat)
    ensures Linked(tasks, i, j) ==> i < |tasks| && j < |tasks|
  {
  }

  lemma AddComponent(tasks: seq<Task>, groups: seq<seq<nat>>, side: seq<nat>, g: nat)
    requires AreComponents(tasks, groups) && g < |groups| && WholeComponents(tasks, side)
    ensures WholeComponents(tasks, side + groups[g])
  {
    hide Linked;
    assert IsComponent(tasks, groups[g]);
  }

  /** Disjoint unions of components have no family in common. */
  lemma NoLeak(tasks: seq<Task>, a: seq<nat>, b: seq<nat>, i: nat, j: nat)
    requires WholeComponents(tasks, a) && multiset(a) + multiset(b) == multiset(Range(|tasks|))
    requires i in a && j in b
    ensures i < |tasks| && j < |tasks| && !Linked(tasks, i, j) && !Share(tasks[i], tasks[j])
  {
    InRange(|tasks|, a, b, i);
    InRange(|tasks|, b, a, j);
    if Share(tasks[i], tasks[j]) {
      ShareIsFamily(tasks[i], tasks[j]);
      var f :| f in Families(tasks[i]) && f in Families(tasks[j]);
      LinkedByFamily(tasks, i, j, f);
    }
    if Linked(tasks, i, j) {
      assert j in multiset(a) && j in multiset(b);
      RangeOnce(|tasks|, j);
      assert false;
    }
  }

  lemma InRange(n: nat, a: seq<nat>, b: seq<nat>, i: nat)
    requires multiset(a) + multiset(b) == multiset(Range(n)) && i in a
    ensures i < n
  {
    assert i in multiset(a);
    assert i in multiset(Range(n));
  }

  function FamilySet(tasks: seq<Task>, side: seq<nat>): set<Family> {
    set i, f | i in side && i < |tasks| && f in Families(tasks[i]) :: f
  }

  /** What a published split guarantees. */
  ghost predicate LeakFree(tasks: seq<Task>, s: Split) {
    && s.calibration != [] && s.untouched != []
    && multiset(s.calibration) + multiset(s.untouched) == multiset(Range(|tasks|))
    && forall i, j :: i in s.calibration && j in s.untouched ==>
         i < |tasks| && j < |tasks| && !Linked(tasks, i, j) && !Share(tasks[i], tasks[j])
  }

  /** The calibration side is the shortest non-empty run of leading components
      that reaches the target, or all but the last component if none does. */
  ghost predicate GreedyCut(groups: seq<seq<nat>>, target: real, calibration: seq<nat>, untouched: seq<nat>, k: nat) {
    && 1 <= k < |groups|
    && calibration == Flatten(groups[..k]) && untouched == Flatten(groups[k..])
    && |Flatten(groups[..k - 1])| as real < target
    && (|calibration| as real >= target || k == |groups| - 1)
  }

  /** The split cuts some arrangement of the components at the target. */
  ghost predicate CutsComponents(tasks: seq<Task>, target: real, s: Split) {
    exists groups, k :: AreComponents(tasks, groups) && |groups| == s.components
      && GreedyCut(groups, target, s.calibration, s.untouched, k)
  }

  /** All tasks are in one component. */
  ghost predicate OneFamily(tasks: seq<Task>) {
    forall i: nat, j: nat :: i < |tasks| && j < |tasks| ==> Linked(tasks, i, j)
  }

  lemma FewGroups(tasks: seq<Task>, groups: seq<seq<nat>>)
    requires AreComponents(tasks, groups)
    ensures |groups| < 2 <==> OneFamily(tasks)
  {
    hide Linked;
    if |groups| < 2 {
      forall i: nat, j: nat | i < |tasks| && j < |tasks| ensures Linked(tasks, i, j) {
        InOneGroup(tasks, groups, i);
        InOneGroup(tasks, groups, j);
        assert IsComponent(tasks, groups[0]);
      }
    } else {
      TwoGroupsApart(tasks, groups);
    }
  }

  lemma InOneGroup(tasks: seq<Task>, groups: seq<seq<nat>>, i: nat)
    requires multiset(Flatten(groups)) == multiset(Range(|tasks|)) && i < |tasks|
    ensures exists g :: 0 <= g < |groups| && i in groups[g]
  {
    assert Range(|tasks|)[i] == i;
    assert i in multiset(Range(|tasks|));
    InSomeGroup(groups, i);
  }

  lemma TwoGroupsApart(tasks: seq<Task>, groups: seq<seq<nat>>)
    requires AreComponents(tasks, groups) && |groups| >= 2
    ensures !OneFamily(tasks)
  {
    hide Linked;
    assert IsComponent(tasks, groups[0]) && IsComponent(tasks, groups[1]);
    var i, j := groups[0][0], groups[1][0];
    FlattenRemove(groups, 0);
    FlattenRemove(groups[1..], 0);
    assert groups[..0] + groups[0 + 1..] == groups[1..];
    RangeOnce(|tasks|, j);
    assert multiset(groups[0])[j] + multiset(groups[1])[j] <= 1;
    assert j in multiset(groups[1]);
    assert j !in multiset(groups[0]);
    assert !Linked(tasks, i, j);
  }

  /** Split the tasks; groups are taken in an arbitrary order, which stands for
      the source's seeded digest order. */
  method GroupDisjointSplit(tasks: seq<Task>, fraction: real) returns (r: Result<Split, SplitError>)
    ensures r == Failure(BadFraction) <==> !(0.0 < fraction < 1.0)
    ensures r == Failure(OneComponent) <==> 0.0 < fraction < 1.0 && OneFamily(tasks)
    ensures r.Success? ==> LeakFree(tasks, r.value)
    ensures r.Success? ==> CutsComponents(tasks, |tasks| as real * fraction, r.value)
  {
    hide Linked, Share, AreComponents, OneFamily, FamilySet, GreedyCut;
    if !(0.0 < fraction < 1.0) {
      return Failure(BadFraction);
    }
    var found := Components(tasks);
    FewGroups(tasks, found);
    if |found| < 2 {
      return Failure(OneComponent);
    }
    var groups :| multiset(groups) == multiset(found);
    Reordered(tasks, found, groups);
    SomeTask(tasks, groups);
    var calibration, untouched, k := AssignGroups(tasks, groups, |tasks| as real * fraction);
    if untouched == [] {
      assert false;
    }
    var overlap := FamilySet(tasks, calibration) * FamilySet(tasks, untouched);
    NoOverlap(tasks, calibration, untouched);
    if overlap != {} {
      assert false;
    }
    return Success(Split(calibration, untouched, |groups|));
  }

  /** Fill the calibration side up to the target, one component at a time, and
      keep at least the last component untouched. */
  method AssignGroups(tasks: seq<Task>, groups: seq<seq<nat>>, target: real)
    returns (calibration: seq<nat>, untouched: seq<nat>, ghost k: nat)
    requires AreComponents(tasks, groups) && |groups| >= 2 && target > 0.0
    ensures LeakFree(tasks, Split(calibration, untouched, |groups|))
    ensures GreedyCut(groups, target, calibration, untouched, k)
  {
    hide AreComponents, WholeComponents, Flatten, Linked, Share;
    calibration, untouched, k := [], [], 0;
    var index := 0;
    NothingAssigned(tasks, groups);
    while index < |groups|
      invariant 0 <= index <= |groups| && k <= index && k < |groups| && (index > 0 ==> k > 0)
      invariant calibration == Flatten(groups[..k]) && untouched == Flatten(groups[k..index])
      invariant WholeComponents(tasks, calibration)
      invariant k > 0 ==> calibration != [] && |Flatten(groups[..k - 1])| as real < target
      invariant k < index ==> untouched != [] && (|calibration| as real >= target || k == |groups| - 1)
    {
      var group := groups[index];
      AssignNext(tasks, groups, calibration, k, index);
      var remaining := |groups| - index;
      if |calibration| as real < target && remaining > 1 {
        assert k == index && untouched == [];
        calibration := calibration + group;
        k := k + 1;
      } else {
        untouched := untouched + group;
      }
      index := index + 1;
    }
    AllAssigned(tasks, groups, k);
    assert groups[k..index] == groups[k..];
    NoLeakAnywhere(tasks, calibration, untouched);
  }

  lemma NoLeakAnywhere(tasks: seq<Task>, a: seq<nat>, b: seq<nat>)
    requires WholeComponents(tasks, a) && multiset(a) + multiset(b) == multiset(Range(|tasks|))
    ensures forall i, j :: i in a && j in b ==>
      i < |tasks| && j < |tasks| && !Linked(tasks, i, j) && !Share(tasks[i], tasks[j])
  {
    hide Linked, Share, WholeComponents;
    forall i, j | i in a && j in b
      ensures i < |tasks| && j < |tasks| && !Linked(tasks, i, j) && !Share(tasks[i], tasks[j])
    {
      NoLeak(tasks, a, b, i, j);
    }
  }

  lemma Reordered(tasks: seq<Task>, a: seq<seq<nat>>, b: seq<seq<nat>>)
    requires AreComponents(tasks, a) && multiset(a) == multiset(b)
    ensures AreComponents(tasks, b) && |a| == |b|
  {
    hide Linked;
    FlattenPermutation(a, b);
    assert |multiset(a)| == |a| && |multiset(b)| == |b|;
    forall g | 0 <= g < |b| ensures IsComponent(tasks, b[g]) {
      assert b[g] in multiset(a);
      var h :| 0 <= h < |a| && a[h] == b[g];
    }
  }

  lemma NothingAssigned(tasks: seq<Task>, groups: seq<seq<nat>>)
    ensures WholeComponents(tasks, []) && Flatten(groups[..0]) == []
  {
  }

  lemma FlattenNothing()
    ensures Flatten([]) == []
  {
  }

  lemma SomeTask(tasks: seq<Task>, groups: seq<seq<nat>>)
    requires AreComponents(tasks, groups) && groups != []
    ensures |tasks| >= 1
  {
    assert IsComponent(tasks, groups[0]);
    assert |multiset(Flatten(groups))| == |Flatten(groups)| >= |groups[0]|;
    assert |multiset(Range(|tasks|))| == |tasks|;
  }

  lemma AssignNext(tasks: seq<Task>, groups: seq<seq<nat>>, side: seq<nat>, k: nat, index: nat)
    requires AreComponents(tasks, groups) && k <= index < |groups| && WholeComponents(tasks, side)
    ensures groups[index] != [] && WholeComponents(tasks, side + groups[index])
    ensures k == index ==> Flatten(groups[..k + 1]) == Flatten(groups[..k]) + groups[index]
    ensures k == index ==> Flatten(groups[k..index]) == Flatten(groups[k + 1..index + 1]) == []
    ensures Flatten(groups[k..index + 1]) == Flatten(groups[k..index]) + groups[index]
  {
    hide Flatten;
    assert IsComponent(tasks, groups[index]);
    AddComponent(tasks, groups, side, index);
    FlattenAppend(groups[..index], groups[index]);
    FlattenAppend(groups[k..index], groups[index]);
    FlattenNothing();
    assert groups[..index] + [groups[index]] == groups[..index + 1];
    assert groups[k..index] + [groups[index]] == groups[k..index + 1];
    if k == index {
      assert groups[k..index] == [] && groups[k + 1..index + 1] == [];
    }
  }

  lemma Regroup(a: seq<nat>, b: seq<nat>, c: seq<nat>)
    ensures (a + b) + c == a + (b + c)
  {
  }

  lemma {:induction false} FlattenConcat(a: seq<seq<nat>>, b: seq<seq<nat>>)
    ensures Flatten(a + b) == Flatten(a) + Flatten(b)
  {
    hide Flatten;
    if a == [] {
      assert a + b == b;
      FlattenNothing();
    } else {
      var first, rest := a[0], a[1..];
      FlattenConcat(rest, b);
      FlattenFirst(a);
      FlattenFirst(a + b);
      assert (a + b)[1..] == rest + b;
      Regroup(first, Flatten(rest), Flatten(b));
    }
  }

  lemma AllAssigned(tasks: seq<Task>, groups: seq<seq<nat>>, k: nat)
    requires AreComponents(tasks, groups) && k <= |groups|
    ensures multiset(Flatten(groups[..k])) + multiset(Flatten(groups[k..])) == multiset(Range(|tasks|))
  {
    hide Flatten;
    assert groups[..k] + groups[k..] == groups;
    FlattenConcat(groups[..k], groups[k..]);
  }

  lemma NoOverlap(tasks: seq<Task>, a: seq<nat>, b: seq<nat>)
    requires forall i, j :: i in a && j in b ==> i < |tasks| && j < |tasks| && !Share(tasks[i], tasks[j])
    ensures FamilySet(tasks, a) * FamilySet(tasks, b) == {}
  {
    forall f | f in FamilySet(tasks, a) ensures f !in FamilySet(tasks, b) {
      var i :| i in a && i < |tasks| && f in Families(tasks[i]);
      forall j | j in b ensures f !in Families(tasks[j]) {
        ShareIsFamily(tasks[i], tasks[j]);
      }
    }
  }
}
