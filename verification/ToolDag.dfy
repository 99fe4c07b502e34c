/** Levels of a tool-call graph, and their execution. */
module ToolDag {
  import opened Wrappers
  import opened SeqLemmas

  datatype Node = Node(id: string, kind: string, deps: seq<string>)

  datatype DagError = UnknownDependency | CycleDetected

  function Ids(nodes: seq<Node>): (ids: set<string>)
    ensures forall i :: 0 <= i < |nodes| ==> nodes[i].id in ids
  {
    set i | 0 <= i < |nodes| :: nodes[i].id
  }

  ghost predicate UniqueIds(nodes: seq<Node>) {
    forall i, j :: 0 <= i < j < |nodes| ==> nodes[i].id != nodes[j].id
  }

  ghost predicate Known(nodes: seq<Node>) {
    forall i, k :: 0 <= i < |nodes| && 0 <= k < |nodes[i].deps| ==> nodes[i].deps[k] in Ids(nodes)
  }

  /** Node a depends on node b. */
  ghost predicate DependsOn(nodes: seq<Node>, a: string, b: string) {
    exists n :: n in nodes && n.id == a && b in n.deps
  }

  /** A chain of dependencies, from dependent to dependency. */
  ghost predicate Chain(nodes: seq<Node>, p: seq<string>) {
    p != [] && forall k :: 0 <= k < |p| - 1 ==> DependsOn(nodes, p[k], p[k + 1])
  }

  ghost predicate Cyclic(nodes: seq<Node>) {
    exists p :: Chain(nodes, p) && |p| >= 2 && p[0] == p[|p| - 1]
  }

  // ---------- what a levelling means ----------

  function Flatten(levels: seq<seq<Node>>): seq<Node> {
    if levels == [] then [] else Flatten(levels[..|levels| - 1]) + levels[|levels| - 1]
  }

  predicate AllIn(deps: seq<string>, done: set<string>) {
    forall k :: 0 <= k < |deps| ==> deps[k] in done
  }

  /** n depends on a node of the level. */
  ghost predicate NeedsOneOf(n: Node, level: seq<Node>) {
    exists k :: 0 <= k < |n.deps| && n.deps[k] in Ids(level)
  }

  /** On level l every id is new, its dependencies lie strictly below, and
      above level 0 one of them lies directly below: nothing is scheduled
      later than necessary. */
  ghost predicate LevelOk(levels: seq<seq<Node>>, l: nat)
    requires l < |levels|
  {
    forall n :: n in levels[l] ==>
      n.id !in Ids(Flatten(levels[..l])) && AllIn(n.deps, Ids(Flatten(levels[..l])))
      && (l > 0 ==> NeedsOneOf(n, levels[l - 1]))
  }

  ghost predicate Layered(levels: seq<seq<Node>>) {
    forall l :: 0 <= l < |levels| ==> LevelOk(levels, l)
  }

  // ---------- the algorithm ----------

  function ReadyOf(remaining: seq<Node>, resolved: set<string>): (ready: seq<Node>)
    ensures forall n :: n in ready <==> n in remaining && AllIn(n.deps, resolved)
  {
    if remaining == [] then []
    else
      var r := ReadyOf(remaining[1..], resolved);
      if AllIn(remaining[0].deps, resolved) then [remaining[0]] + r else r
  }

  function Unresolved(remaining: seq<Node>, resolved: set<string>): (rest: seq<Node>)
    ensures |rest| <= |remaining|
    ensures |rest| == |remaining| ==> forall n :: n in remaining ==> n.id !in resolved
    ensures forall n :: n in rest <==> n in remaining && n.id !in resolved
  {
    if remaining == [] then []
    else
      var r := Unresolved(remaining[1..], resolved);
      if remaining[0].id in resolved then r else [remaining[0]] + r
  }

  /** With unique ids, what becomes resolved is exactly what was ready. */
  lemma {:induction false} SplitRemaining(remaining: seq<Node>, resolved: set<string>, done: set<string>)
    requires forall n :: n in remaining ==> (n.id in done <==> AllIn(n.deps, resolved))
    ensures multiset(remaining) == multiset(ReadyOf(remaining, resolved)) + multiset(Unresolved(remaining, done))
  {
    if remaining != [] {
      assert remaining == [remaining[0]] + remaining[1..];
      SplitRemaining(remaining[1..], resolved, done);
    }
  }

  // ---------- cycles ----------

  /** A dependency chain longer than the supply of ids repeats one. */
  lemma {:induction false} Pigeonhole(p: seq<string>, u: set<string>) returns (i: nat, j: nat)
    requires |p| > |u| && forall k :: 0 <= k < |p| ==> p[k] in u
    ensures i < j < |p| && p[i] == p[j]
    decreases |p|
  {
    var n := |p| - 1;
    if exists k :: 0 <= k < n && p[k] == p[n] {
      i :| 0 <= i < n && p[i] == p[n];
      j := n;
    } else {
      assert forall k :: 0 <= k < n ==> p[..n][k] in u - {p[n]};
      i, j := Pigeonhole(p[..n], u - {p[n]});
    }
  }

  ghost predicate DependsInto(nodes: seq<Node>, a: string, u: set<string>) {
    exists b :: b in u && DependsOn(nodes, a, b)
  }

  /** Every id of u depends on an id of u. */
  ghost predicate Stuck(nodes: seq<Node>, u: set<string>) {
    u != {} && forall a :: a in u ==> DependsInto(nodes, a, u)
  }

  lemma ExtendChain(nodes: seq<Node>, q: seq<string>, b: string)
    requires Chain(nodes, q) && DependsOn(nodes, q[|q| - 1], b)
    ensures Chain(nodes, q + [b])
  {
    hide DependsOn;
  }

  lemma {:induction false} LongChain(nodes: seq<Node>, u: set<string>, n: nat) returns (p: seq<string>)
    requires Stuck(nodes, u)
    ensures |p| == n + 1 && Chain(nodes, p) && forall k :: 0 <= k < |p| ==> p[k] in u
  {
    hide DependsOn;
    if n == 0 {
      var a :| a in u;
      p := [a];
    } else {
      var q := LongChain(nodes, u, n - 1);
      assert DependsInto(nodes, q[n - 1], u);
      var b :| b in u && DependsOn(nodes, q[n - 1], b);
      ExtendChain(nodes, q, b);
      p := q + [b];
    }
  }

  lemma StuckMeansCycle(nodes: seq<Node>, u: set<string>)
    requires Stuck(nodes, u)
    ensures Cyclic(nodes)
  {
    hide DependsOn, Stuck;
    var p := LongChain(nodes, u, |u|);
    var i, j := Pigeonhole(p, u);
    var c := p[i..j + 1];
    forall k | 0 <= k < |c| - 1 ensures DependsOn(nodes, c[k], c[k + 1]) {
      assert DependsOn(nodes, p[i + k], p[i + k + 1]);
    }
    assert Chain(nodes, c);
  }

  // ---------- levels ----------

  lemma AppendLevel(levels: seq<seq<Node>>, ready: seq<Node>)
    requires Layered(levels)
    requires forall n :: n in ready ==> n.id !in Ids(Flatten(levels)) && AllIn(n.deps, Ids(Flatten(levels)))
    requires levels != [] ==> forall n :: n in ready ==> NeedsOneOf(n, levels[|levels| - 1])
    ensures Layered(levels + [ready])
    ensures Flatten(levels + [ready]) == Flatten(levels) + ready
  {
    var grown := levels + [ready];
    assert grown[..|levels|] == levels;
    forall l | 0 <= l < |grown| ensures LevelOk(grown, l) {
      if l < |levels| {
        assert LevelOk(levels, l);
        assert grown[..l] == levels[..l];
      }
    }
  }

  lemma IdsOfConcat(a: seq<Node>, b: seq<Node>)
    ensures Ids(a + b) == Ids(a) + Ids(b)
  {
    forall id | id in Ids(a) + Ids(b) ensures id in Ids(a + b) {
      if id in Ids(a) {
        var i :| 0 <= i < |a| && a[i].id == id;
        assert (a + b)[i].id == id;
      } else {
        var i :| 0 <= i < |b| && b[i].id == id;
        assert (a + b)[|a| + i].id == id;
      }
    }
  }

  lemma KnownDependency(nodes: seq<Node>, n: Node, k: nat) returns (m: Node)
    requires Known(nodes) && n in nodes && k < |n.deps|
    ensures m in nodes && m.id == n.deps[k] && DependsOn(nodes, n.id, m.id)
  {
    hide DependsOn;
    var i :| 0 <= i < |nodes| && nodes[i] == n;
    assert nodes[i].deps[k] in Ids(nodes);
    var j :| 0 <= j < |nodes| && nodes[j].id == n.deps[k];
    m := nodes[j];
    DirectDependency(nodes, n, k);
  }

  lemma DirectDependency(nodes: seq<Node>, n: Node, k: nat)
    requires n in nodes && k < |n.deps|
    ensures DependsOn(nodes, n.id, n.deps[k])
  {
    hide Ids;
  }

  ghost predicate AllWaiting(nodes: seq<Node>, remaining: seq<Node>, resolved: set<string>) {
    && (forall n :: n in remaining ==> n in nodes && !AllIn(n.deps, resolved))
    && (forall n :: n in nodes ==> n.id in resolved || n in remaining)
  }

  lemma WaitsForRemaining(nodes: seq<Node>, remaining: seq<Node>, resolved: set<string>, n: Node)
    requires Known(nodes) && AllWaiting(nodes, remaining, resolved) && n in remaining
    ensures DependsInto(nodes, n.id, Ids(remaining))
  {
    hide DependsOn, Known;
    var k :| 0 <= k < |n.deps| && n.deps[k] !in resolved;
    var m := KnownDependency(nodes, n, k);
    assert m in remaining && m.id in Ids(remaining);
  }

  /** Nothing is ready although something remains: a cycle. */
  lemma NothingReady(nodes: seq<Node>, remaining: seq<Node>, resolved: set<string>)
    requires Known(nodes) && remaining != [] && AllWaiting(nodes, remaining, resolved)
    ensures Cyclic(nodes)
  {
    hide AllWaiting, Known, DependsInto, Cyclic;
    var u := Ids(remaining);
    assert remaining[0].id in u;
    forall a | a in u ensures DependsInto(nodes, a, u) {
      var i :| 0 <= i < |remaining| && remaining[i].id == a;
      WaitsForRemaining(nodes, remaining, resolved, remaining[i]);
    }
    StuckMeansCycle(nodes, u);
  }

  // ---------- longest chains ----------

  /** p is a dependency chain that starts at id. */
  ghost predicate ChainFrom(nodes: seq<Node>, p: seq<string>, id: string) {
    Chain(nodes, p) && p[0] == id
  }

  /** The level of an id; |levels| when it has none. */
  function LevelOf(levels: seq<seq<Node>>, id: string): (l: nat)
    ensures l <= |levels|
    ensures l < |levels| ==> id in Ids(levels[l])
    ensures forall k :: 0 <= k < l ==> id !in Ids(levels[k])
  {
    if levels == [] || id in Ids(levels[0]) then 0 else 1 + LevelOf(levels[1..], id)
  }

  /** A levelling of exactly the given nodes. */
  ghost predicate Levelling(nodes: seq<Node>, levels: seq<seq<Node>>) {
    Layered(levels) && multiset(Flatten(levels)) == multiset(nodes)
  }

  lemma {:induction false} InFlatten(levels: seq<seq<Node>>, n: Node) returns (l: nat)
    requires n in Flatten(levels)
    ensures l < |levels| && n in levels[l]
  {
    var last := |levels| - 1;
    if n in levels[last] {
      l := last;
    } else {
      l := InFlatten(levels[..last], n);
    }
  }

  lemma {:induction false} FlattenHas(levels: seq<seq<Node>>, l: nat, n: Node)
    requires l < |levels| && n in levels[l]
    ensures n in Flatten(levels)
  {
    if l < |levels| - 1 {
      FlattenHas(levels[..|levels| - 1], l, n);
    }
  }

  /** A node sits on the level of its id. */
  lemma LevelOfNode(levels: seq<seq<Node>>, l: nat, n: Node)
    requires Layered(levels) && l < |levels| && n in levels[l]
    ensures LevelOf(levels, n.id) == l
  {
    hide Flatten, AllIn, NeedsOneOf;
    var k := LevelOf(levels, n.id);
    assert n.id in Ids(levels[l]);
    assert LevelOk(levels, l);
    if k < l {
      var i :| 0 <= i < |levels[k]| && levels[k][i].id == n.id;
      assert levels[..l][k] == levels[k];
      FlattenHas(levels[..l], k, levels[k][i]);
      assert false;
    }
  }

  lemma LevelBelow(levels: seq<seq<Node>>, l: nat, id: string) returns (k: nat)
    requires l <= |levels| && id in Ids(Flatten(levels[..l]))
    ensures k < l && id in Ids(levels[k])
  {
    hide Flatten;
    var flat := Flatten(levels[..l]);
    var i :| 0 <= i < |flat| && flat[i].id == id;
    k := InFlatten(levels[..l], flat[i]);
    assert flat[i] in levels[k];
  }

  /** A dependency lies on a strictly lower level. */
  lemma DependencyIsLower(nodes: seq<Node>, levels: seq<seq<Node>>, a: string, b: string)
    requires Levelling(nodes, levels) && DependsOn(nodes, a, b)
    ensures LevelOf(levels, b) < LevelOf(levels, a) < |levels|
  {
    hide Flatten, NeedsOneOf;
    var n :| n in nodes && n.id == a && b in n.deps;
    assert n in multiset(nodes);
    assert n in Flatten(levels);
    var l := InFlatten(levels, n);
    LevelOfNode(levels, l, n);
    assert LevelOk(levels, l);
    var k := LevelBelow(levels, l, b);
  }

  /** No chain is longer than the level of its start allows. */
  lemma {:induction false} ChainFitsLevel(nodes: seq<Node>, levels: seq<seq<Node>>, p: seq<string>)
    requires Levelling(nodes, levels) && Chain(nodes, p)
    ensures |p| <= LevelOf(levels, p[0]) + 1 - LevelOf(levels, p[|p| - 1])
    decreases |p|
  {
    hide Levelling, DependsOn;
    if |p| > 1 {
      assert DependsOn(nodes, p[0], p[1]);
      DependencyIsLower(nodes, levels, p[0], p[1]);
      forall k | 0 <= k < |p[1..]| - 1 ensures DependsOn(nodes, p[1..][k], p[1..][k + 1]) {
        assert DependsOn(nodes, p[k + 1], p[k + 1 + 1]);
      }
      ChainFitsLevel(nodes, levels, p[1..]);
    }
  }

  /** And some chain is exactly that long. */
  lemma {:induction false} LongestChain(nodes: seq<Node>, levels: seq<seq<Node>>, n: Node, l: nat)
    returns (p: seq<string>)
    requires Levelling(nodes, levels) && l < |levels| && n in levels[l]
    ensures ChainFrom(nodes, p, n.id) && |p| == l + 1
    decreases l
  {
    hide DependsOn, Flatten, Ids;
    if l == 0 {
      p := [n.id];
    } else {
      var m := DirectlyBelow(levels, l, n);
      var q := LongestChain(nodes, levels, m, l - 1);
      LevelledDependency(nodes, levels, l, n, m);
      p := [n.id] + q;
      forall k | 0 <= k < |p| - 1 ensures DependsOn(nodes, p[k], p[k + 1]) {
        if k > 0 {
          var j := k - 1;
          assert DependsOn(nodes, q[j], q[j + 1]);
        }
      }
    }
  }

  lemma DirectlyBelow(levels: seq<seq<Node>>, l: nat, n: Node) returns (m: Node)
    requires Layered(levels) && 0 < l < |levels| && n in levels[l]
    ensures m in levels[l - 1] && m.id in n.deps
  {
    hide Flatten, AllIn;
    assert LevelOk(levels, l);
    var k :| 0 <= k < |n.deps| && n.deps[k] in Ids(levels[l - 1]);
    var i :| 0 <= i < |levels[l - 1]| && levels[l - 1][i].id == n.deps[k];
    m := levels[l - 1][i];
  }

  lemma LevelledDependency(nodes: seq<Node>, levels: seq<seq<Node>>, l: nat, n: Node, m: Node)
    requires Levelling(nodes, levels) && l < |levels| && n in levels[l] && m.id in n.deps
    ensures DependsOn(nodes, n.id, m.id)
  {
    hide Ids, Layered;
    FlattenHas(levels, l, n);
    assert n in multiset(Flatten(levels));
    assert n in nodes;
  }

  /** The level of a node is the length of its longest dependency chain, not
      counting the node itself. */
  lemma LevelIsLongestChain(nodes: seq<Node>, levels: seq<seq<Node>>, n: Node)
    requires Levelling(nodes, levels) && n in nodes
    ensures exists p :: ChainFrom(nodes, p, n.id) && |p| == LevelOf(levels, n.id) + 1
    ensures forall p :: ChainFrom(nodes, p, n.id) ==> |p| <= LevelOf(levels, n.id) + 1
  {
    hide Layered, Flatten, LevelOf, Chain;
    assert n in multiset(nodes);
    var l := InFlatten(levels, n);
    LevelOfNode(levels, l, n);
    var longest := LongestChain(nodes, levels, n, l);
    forall p | ChainFrom(nodes, p, n.id) ensures |p| <= LevelOf(levels, n.id) + 1 {
      ChainFitsLevel(nodes, levels, p);
    }
  }

  /** A graph that has a levelling has no cycle. */
  lemma LevelledMeansAcyclic(nodes: seq<Node>, levels: seq<seq<Node>>)
    requires Levelling(nodes, levels)
    ensures !Cyclic(nodes)
  {
    hide Levelling, DependsOn;
    if Cyclic(nodes) {
      var p :| Chain(nodes, p) && |p| >= 2 && p[0] == p[|p| - 1];
      ChainFitsLevel(nodes, levels, p);
      assert false;
    }
  }

  // ---------- the levels ----------

  lemma UniqueMeansSame(nodes: seq<Node>, m: Node, n: Node)
    requires UniqueIds(nodes) && m in nodes && n in nodes && m.id == n.id
    ensures m == n
  {
    var i :| 0 <= i < |nodes| && nodes[i] == m;
    var j :| 0 <= j < |nodes| && nodes[j] == n;
    assert nodes[i].id == nodes[j].id;
  }

  /** What the loop of Levels knows between two levels. */
  ghost predicate Progress(nodes: seq<Node>, levels: seq<seq<Node>>, resolved: set<string>, remaining: seq<Node>) {
    && Layered(levels)
    && resolved == Ids(Flatten(levels))
    && (forall n :: n in remaining ==> n in nodes && n.id !in resolved)
    && (forall n :: n in nodes ==> n.id in resolved || n in remaining)
    && (forall n :: n in Flatten(levels) ==> n in nodes)
    && (levels != [] ==> forall n :: n in remaining ==> !AllIn(n.deps, Ids(Flatten(levels[..|levels| - 1]))))
  }

  lemma AtLastLevel(n: Node, below: set<string>, last: seq<Node>)
    requires AllIn(n.deps, below + Ids(last)) && !AllIn(n.deps, below)
    ensures NeedsOneOf(n, last)
  {
    hide Ids;
  }

  lemma ReadyNeedLast(nodes: seq<Node>, levels: seq<seq<Node>>, resolved: set<string>, remaining: seq<Node>)
    requires Progress(nodes, levels, resolved, remaining) && levels != []
    ensures forall n :: n in ReadyOf(remaining, resolved) ==> NeedsOneOf(n, levels[|levels| - 1])
  {
    hide Layered, NeedsOneOf, Ids, AllIn;
    var last := |levels| - 1;
    IdsOfConcat(Flatten(levels[..last]), levels[last]);
    forall n | n in ReadyOf(remaining, resolved) ensures NeedsOneOf(n, levels[last]) {
      AtLastLevel(n, Ids(Flatten(levels[..last])), levels[last]);
    }
  }

  /** One level keeps the invariant and, with unique ids, moves every ready
      node over exactly once. */
  lemma LevelKeepsProgress(nodes: seq<Node>, levels: seq<seq<Node>>, resolved: set<string>, remaining: seq<Node>)
    requires Progress(nodes, levels, resolved, remaining)
    ensures
      var ready := ReadyOf(remaining, resolved);
      var done := resolved + Ids(ready);
      Progress(nodes, levels + [ready], done, Unresolved(remaining, done))
  {
    hide Layered, NeedsOneOf, Ids, AllIn, Flatten;
    var ready := ReadyOf(remaining, resolved);
    var done := resolved + Ids(ready);
    if levels != [] {
      ReadyNeedLast(nodes, levels, resolved, remaining);
    }
    AppendLevel(levels, ready);
    IdsOfConcat(Flatten(levels), ready);
    assert (levels + [ready])[..|levels|] == levels;
    forall n | n in Unresolved(remaining, done) ensures !AllIn(n.deps, resolved) {
      if n in ready {
        IdsHave(ready, n);
        assert false;
      }
    }
  }

  lemma IdsHave(nodes: seq<Node>, n: Node)
    ensures n in nodes ==> n.id in Ids(nodes)
  {
  }

  /** With unique ids no node is lost and none is scheduled twice. */
  lemma LevelKeepsNodes(nodes: seq<Node>, levels: seq<seq<Node>>, resolved: set<string>, remaining: seq<Node>)
    requires UniqueIds(nodes) && Progress(nodes, levels, resolved, remaining)
    requires multiset(Flatten(levels)) + multiset(remaining) == multiset(nodes)
    ensures
      var ready := ReadyOf(remaining, resolved);
      multiset(Flatten(levels + [ready])) + multiset(Unresolved(remaining, resolved + Ids(ready))) == multiset(nodes)
  {
    hide Layered, UniqueIds, AllIn, Flatten;
    var ready := ReadyOf(remaining, resolved);
    var done := resolved + Ids(ready);
    forall n | n in remaining ensures n.id in done <==> AllIn(n.deps, resolved) {
      if n.id in Ids(ready) {
        var i :| 0 <= i < |ready| && ready[i].id == n.id;
        UniqueMeansSame(nodes, ready[i], n);
      }
    }
    SplitRemaining(remaining, resolved, done);
    assert Flatten(levels + [ready]) == Flatten(levels) + ready by {
      FlattenAppend(levels, ready);
    }
  }

  lemma FlattenAppend(levels: seq<seq<Node>>, ready: seq<Node>)
    ensures Flatten(levels + [ready]) == Flatten(levels) + ready
  {
    assert (levels + [ready])[..|levels|] == levels;
  }

  lemma SomethingReady(remaining: seq<Node>, resolved: set<string>)
    requires ReadyOf(remaining, resolved) != []
    ensures |Unresolved(remaining, resolved + Ids(ReadyOf(remaining, resolved)))| < |remaining|
  {
    var ready := ReadyOf(remaining, resolved);
    assert ready[0] in remaining && ready[0].id in Ids(ready);
  }

  lemma ProgressDone(nodes: seq<Node>, levels: seq<seq<Node>>, resolved: set<string>)
    requires Progress(nodes, levels, resolved, [])
    ensures Layered(levels) && Ids(Flatten(levels)) == Ids(nodes)
  {
    hide Layered, Flatten;
    var flat := Flatten(levels);
    forall id | id in Ids(flat) ensures id in Ids(nodes) {
      var i :| 0 <= i < |flat| && flat[i].id == id;
      IdsHave(nodes, flat[i]);
    }
    forall id | id in Ids(nodes) ensures id in Ids(flat) {
      var i :| 0 <= i < |nodes| && nodes[i].id == id;
      assert nodes[i] in nodes;
    }
  }

  /** What levelling computes from here on: round after round, the ready nodes
      form a level, and every node whose id is then resolved is dropped. */
  function LevelsOf(remaining: seq<Node>, resolved: set<string>): (r: Result<seq<seq<Node>>, DagError>)
    ensures r.Failure? ==> r.error == CycleDetected
    decreases |remaining|
  {
    if remaining == [] then Success([])
    else
      var ready := ReadyOf(remaining, resolved);
      if ready == [] then Failure(CycleDetected)
      else
        var done := resolved + Ids(ready);
        SomethingReady(remaining, resolved);
        After([ready], LevelsOf(Unresolved(remaining, done), done))
  }

  function After(levels: seq<seq<Node>>, r: Result<seq<seq<Node>>, DagError>): Result<seq<seq<Node>>, DagError> {
    if r.Success? then Success(levels + r.value) else r
  }

  ghost function LevellingOf(nodes: seq<Node>): Result<seq<seq<Node>>, DagError> {
    if Known(nodes) then LevelsOf(nodes, {}) else Failure(UnknownDependency)
  }

  lemma LevelsRound(levels: seq<seq<Node>>, remaining: seq<Node>, resolved: set<string>)
    requires remaining != []
    ensures var ready := ReadyOf(remaining, resolved);
      var done := resolved + Ids(ready);
      After(levels, LevelsOf(remaining, resolved))
      == if ready == [] then Failure(CycleDetected)
         else After(levels + [ready], LevelsOf(Unresolved(remaining, done), done))
  {
    var ready := ReadyOf(remaining, resolved);
    var rest := LevelsOf(Unresolved(remaining, resolved + Ids(ready)), resolved + Ids(ready));
    if ready != [] && rest.Success? {
      assert levels + ([ready] + rest.value) == levels + [ready] + rest.value;
    }
  }

  lemma AfterNothing(r: Result<seq<seq<Node>>, DagError>)
    ensures After([], r) == r
  {
    if r.Success? {
      assert [] + r.value == r.value;
    }
  }

  lemma LevelsEnd(levels: seq<seq<Node>>, resolved: set<string>)
    ensures After(levels, LevelsOf([], resolved)) == Success(levels)
  {
    assert levels + [] == levels;
  }

  /** Kahn-style levels. An undeclared dependency is an error; with unique ids
      a cycle is reported exactly when there is one, and otherwise every node
      is scheduled exactly once, on the level of its longest chain. */
  method Levels(nodes: seq<Node>) returns (r: Result<seq<seq<Node>>, DagError>)
    ensures r == LevellingOf(nodes)
    ensures r == Failure(UnknownDependency) <==> !Known(nodes)
    ensures r == Failure(CycleDetected) ==> Cyclic(nodes)
    ensures UniqueIds(nodes) && Known(nodes) ==> (r == Failure(CycleDetected) <==> Cyclic(nodes))
    ensures r.Success? ==> Layered(r.value) && Ids(Flatten(r.value)) == Ids(nodes)
    ensures r.Success? && UniqueIds(nodes) ==> Levelling(nodes, r.value)
  {
    hide Layered, UniqueIds, Progress, Known, AllIn, Levelling, Cyclic, LevelsOf;
    var unknown := FirstUnknown(nodes);
    if unknown {
      return Failure(UnknownDependency);
    }
    var resolved: set<string> := {};
    var levels: seq<seq<Node>> := [];
    var remaining := nodes;
    ProgressStart(nodes);
    AfterNothing(LevelsOf(nodes, {}));
    while remaining != []
      invariant Progress(nodes, levels, resolved, remaining)
      invariant LevelsOf(nodes, {}) == After(levels, LevelsOf(remaining, resolved))
      invariant UniqueIds(nodes) ==> multiset(Flatten(levels)) + multiset(remaining) == multiset(nodes)
      decreases |remaining|
    {
      var ready := ReadyOf(remaining, resolved);
      LevelsRound(levels, remaining, resolved);
      if ready == [] {
        ProgressStuck(nodes, levels, resolved, remaining);
        return Failure(CycleDetected);
      }
      LevelKeepsProgress(nodes, levels, resolved, remaining);
      if UniqueIds(nodes) {
        LevelKeepsNodes(nodes, levels, resolved, remaining);
      }
      SomethingReady(remaining, resolved);
      levels := levels + [ready];
      resolved := resolved + Ids(ready);
      remaining := Unresolved(remaining, resolved);
    }
    LevelsEnd(levels, resolved);
    ProgressDone(nodes, levels, resolved);
    if UniqueIds(nodes) {
      LevellingIntro(nodes, levels);
      LevelledMeansAcyclic(nodes, levels);
    }
    return Success(levels);
  }

  lemma LevellingIntro(nodes: seq<Node>, levels: seq<seq<Node>>)
    ensures Layered(levels) && multiset(Flatten(levels)) + multiset([]) == multiset(nodes) ==>
      Levelling(nodes, levels)
  {
  }

  lemma ProgressStart(nodes: seq<Node>)
    ensures Progress(nodes, [], {}, nodes)
  {
  }

  lemma ProgressStuck(nodes: seq<Node>, levels: seq<seq<Node>>, resolved: set<string>, remaining: seq<Node>)
    requires Known(nodes) && Progress(nodes, levels, resolved, remaining)
    requires remaining != [] && ReadyOf(remaining, resolved) == []
    ensures Cyclic(nodes)
  {
    hide Layered, Known, AllIn, Flatten, Cyclic;
    forall n | n in remaining ensures !AllIn(n.deps, resolved) {
      if AllIn(n.deps, resolved) {
        assert false;
      }
    }
    NothingReady(nodes, remaining, resolved);
  }

  /** Is there a dependency on an id that was not declared? */
  method FirstUnknown(nodes: seq<Node>) returns (unknown: bool)
    ensures unknown <==> !Known(nodes)
  {
    hide Ids;
    var byId := Ids(nodes);
    for i := 0 to |nodes|
      invariant forall a :: 0 <= a < i ==> AllIn(nodes[a].deps, byId)
    {
      for k := 0 to |nodes[i].deps|
        invariant forall b :: 0 <= b < k ==> nodes[i].deps[b] in byId
      {
        if nodes[i].deps[k] !in byId {
          return true;
        }
      }
    }
    forall i, k | 0 <= i < |nodes| && 0 <= k < |nodes[i].deps| ensures nodes[i].deps[k] in byId {
      assert AllIn(nodes[i].deps, byId);
    }
    return false;
  }

  // ---------- duplicated ids ----------

  lemma ReadyStep(n: Node, rest: seq<Node>, resolved: set<string>)
    ensures ReadyOf([n] + rest, resolved) == (if AllIn(n.deps, resolved) then [n] else []) + ReadyOf(rest, resolved)
    ensures Unresolved([n] + rest, resolved) == (if n.id in resolved then [] else [n]) + Unresolved(rest, resolved)
  {
    assert ([n] + rest)[1..] == rest;
  }

  /** The ids of the nodes that become ready once `done` is resolved are resolved
      next, whether or not a node with that id was there before. */
  function NextResolved(nodes: seq<Node>, done: set<string>): set<string> {
    done + Ids(ReadyOf(nodes, done))
  }

  /** What is resolved l rounds after `done`, from the nodes alone. */
  function ResolvedAfter(nodes: seq<Node>, done: set<string>, l: nat): set<string>
    decreases l
  {
    if l == 0 then done else ResolvedAfter(nodes, NextResolved(nodes, done), l - 1)
  }

  /** m and n are ready after the same number of rounds, if ever. */
  ghost predicate SameRound(m: Node, n: Node, nodes: seq<Node>, done: set<string>) {
    forall l: nat {:trigger ResolvedAfter(nodes, done, l)} ::
      AllIn(m.deps, ResolvedAfter(nodes, done, l)) <==> AllIn(n.deps, ResolvedAfter(nodes, done, l))
  }

  /** Any two nodes with one id become ready in the same round. */
  ghost predicate Together(nodes: seq<Node>, done: set<string>) {
    forall m, n :: m in nodes && n in nodes && m.id == n.id ==> SameRound(m, n, nodes, done)
  }

  /** Nodes whose ids are resolved already add nothing to later rounds. */
  lemma {:induction false} RoundsSkip(nodes: seq<Node>, old_: set<string>, done: set<string>, l: nat)
    requires old_ <= done
    ensures ResolvedAfter(Unresolved(nodes, old_), done, l) == ResolvedAfter(nodes, done, l)
    decreases l
  {
    hide Ids, AllIn, ReadyOf, Unresolved;
    if l > 0 {
      var some := Unresolved(nodes, old_);
      ReadyHasIds(nodes, done);
      ReadyHasIds(some, done);
      forall id ensures id in NextResolved(some, done) <==> id in NextResolved(nodes, done) {
        if id in Ids(ReadyOf(nodes, done)) {
          var n := WithId(ReadyOf(nodes, done), id);
        }
        if id in Ids(ReadyOf(some, done)) {
          var n := WithId(ReadyOf(some, done), id);
        }
      }
      assert NextResolved(some, done) == NextResolved(nodes, done);
      RoundsSkip(nodes, old_, NextResolved(nodes, done), l - 1);
    }
  }

  /** One round further on, with the resolved nodes gone. */
  lemma RoundsLater(nodes: seq<Node>, done: set<string>, l: nat)
    ensures var next := NextResolved(nodes, done);
      ResolvedAfter(nodes, done, l + 1) == ResolvedAfter(Unresolved(nodes, next), next, l)
  {
    RoundsSkip(nodes, NextResolved(nodes, done), NextResolved(nodes, done), l);
  }

  lemma {:induction false} RoundsStay(nodes: seq<Node>, done: set<string>, l: nat)
    requires NextResolved(nodes, done) == done
    ensures ResolvedAfter(nodes, done, l) == done
  {
    if l > 0 {
      RoundsStay(nodes, done, l - 1);
    }
  }

  /** The rounds come to a rest after as many of them as nodes are unresolved, so
      finitely many decide what is ever resolved, and when. */
  lemma {:induction false} RoundsStop(nodes: seq<Node>, done: set<string>, l: nat)
    requires l >= |Unresolved(nodes, done)|
    ensures ResolvedAfter(nodes, done, l) == ResolvedAfter(nodes, done, |Unresolved(nodes, done)|)
    decreases |Unresolved(nodes, done)|
  {
    hide Ids, ReadyOf, Unresolved, ResolvedAfter;
    var next := NextResolved(nodes, done);
    var u := |Unresolved(nodes, done)|;
    if next == done {
      RoundsStay(nodes, done, l);
      RoundsStay(nodes, done, u);
    } else {
      var id :| id in next && id !in done;
      var n := WithId(ReadyOf(nodes, done), id);
      FewerUnresolved(nodes, done, next, n);
      RoundsUnfold(nodes, done, l);
      RoundsUnfold(nodes, done, u);
      RoundsStop(nodes, next, l - 1);
      RoundsStop(nodes, next, u - 1);
    }
  }

  lemma RoundsUnfold(nodes: seq<Node>, done: set<string>, l: nat)
    ensures l > 0 ==> ResolvedAfter(nodes, done, l) == ResolvedAfter(nodes, NextResolved(nodes, done), l - 1)
  {
  }

  lemma {:induction false} FewerUnresolved(nodes: seq<Node>, done: set<string>, next: set<string>, n: Node)
    requires done <= next
    ensures |Unresolved(nodes, next)| <= |Unresolved(nodes, done)|
    ensures n in nodes && n.id in next && n.id !in done ==> |Unresolved(nodes, next)| < |Unresolved(nodes, done)|
  {
    if nodes != [] {
      FewerUnresolved(nodes[1..], done, next, n);
    }
  }

  /** Ids of the levels before level l. */
  function Below(levels: seq<seq<Node>>, l: nat): set<string>
    requires l <= |levels|
  {
    Ids(Flatten(levels[..l]))
  }

  /** The levels are the rounds. */
  lemma {:induction false} LevelsAreRounds(remaining: seq<Node>, done: set<string>, levels: seq<seq<Node>>, l: nat)
    requires LevelsOf(remaining, done) == Success(levels) && l <= |levels|
    ensures done + Below(levels, l) == ResolvedAfter(remaining, done, l)
    decreases l
  {
    hide Flatten, Ids, ReadyOf, Unresolved;
    if l == 0 {
      assert levels[..0] == [];
      FlattenNothing();
      IdsOfNothing();
    } else {
      var next := NextResolved(remaining, done);
      var rest := LevelsOf(Unresolved(remaining, next), next).value;
      LevelsAreRounds(Unresolved(remaining, next), next, rest, l - 1);
      BelowCons(ReadyOf(remaining, done), rest, l - 1);
      RoundsLater(remaining, done, l - 1);
    }
  }

  lemma IdsOfNothing()
    ensures Ids([]) == {}
  {
  }

  /** Levelling gets through exactly when the rounds resolve every id. */
  lemma {:induction false} LevelsOfSucceedsIff(remaining: seq<Node>, done: set<string>, l: nat)
    requires forall n :: n in remaining ==> n.id !in done
    requires l >= |remaining|
    ensures LevelsOf(remaining, done).Success? <==> Ids(remaining) <= ResolvedAfter(remaining, done, l)
    decreases |remaining|
  {
    hide AllIn, Ids, ReadyOf, Unresolved, ResolvedAfter;
    if remaining == [] {
      IdsOfNothing();
    } else {
      var ready := ReadyOf(remaining, done);
      var next := NextResolved(remaining, done);
      if ready == [] {
        IdsOfNothing();
        RoundsStay(remaining, done, l);
        IdsHave(remaining, remaining[0]);
      } else {
        SomethingReady(remaining, done);
        var later := Unresolved(remaining, next);
        LevelsOfSucceedsIff(later, next, l - 1);
        RoundsLater(remaining, done, l - 1);
        RoundsGrow(later, next, l - 1);
        LaterIds(remaining, next);
      }
    }
  }

  lemma {:induction false} RoundsGrow(nodes: seq<Node>, done: set<string>, l: nat)
    ensures done <= ResolvedAfter(nodes, done, l)
    decreases l
  {
    hide Ids, ReadyOf;
    if l > 0 {
      RoundsGrow(nodes, NextResolved(nodes, done), l - 1);
    }
  }

  lemma LaterIds(nodes: seq<Node>, done: set<string>)
    ensures Ids(nodes) <= done + Ids(Unresolved(nodes, done)) && Ids(Unresolved(nodes, done)) <= Ids(nodes)
  {
    hide Unresolved;
    forall id | id in Ids(nodes) && id !in done ensures id in Ids(Unresolved(nodes, done)) {
      var n := WithId(nodes, id);
      IdsHave(Unresolved(nodes, done), n);
    }
    forall id | id in Ids(Unresolved(nodes, done)) ensures id in Ids(nodes) {
      var n := WithId(Unresolved(nodes, done), id);
      IdsHave(nodes, n);
    }
  }

  /** With repeated ids too: no cycle is reported exactly when the rounds resolve
      every id. */
  lemma LevellingSucceedsIff(nodes: seq<Node>)
    requires Known(nodes)
    ensures LevellingOf(nodes).Success? <==> Ids(nodes) <= ResolvedAfter(nodes, {}, |nodes|)
  {
    hide Ids, Known, LevelsOf, ResolvedAfter;
    LevelsOfSucceedsIff(nodes, {}, |nodes|);
  }

  lemma {:induction false} FlattenCons(level: seq<Node>, levels: seq<seq<Node>>)
    ensures Flatten([level] + levels) == level + Flatten(levels)
  {
    if levels == [] {
      assert [level] + levels == [] + [level];
      FlattenAppend([], level);
    } else {
      var last := |levels| - 1;
      FlattenCons(level, levels[..last]);
      assert ([level] + levels)[..|levels|] == [level] + levels[..last];
    }
  }

  lemma BelowCons(level: seq<Node>, levels: seq<seq<Node>>, l: nat)
    requires l <= |levels|
    ensures Below([level] + levels, l + 1) == Ids(level) + Below(levels, l)
    ensures Below([level] + levels, 0) == {}
  {
    hide Flatten;
    assert ([level] + levels)[..l + 1] == [level] + levels[..l];
    assert ([level] + levels)[..0] == [];
    FlattenNothing();
    FlattenCons(level, levels[..l]);
    IdsOfConcat(level, Flatten(levels[..l]));
  }

  /** Dropping: the ready nodes and the rest are all there was exactly when every
      node whose id is now resolved was ready. */
  lemma {:induction false} RoundDrops(remaining: seq<Node>, resolved: set<string>, done: set<string>)
    requires forall n :: n in remaining && AllIn(n.deps, resolved) ==> n.id in done
    ensures |ReadyOf(remaining, resolved)| + |Unresolved(remaining, done)| <= |remaining|
    ensures |ReadyOf(remaining, resolved)| + |Unresolved(remaining, done)| == |remaining|
       <==> forall n :: n in remaining && n.id in done ==> AllIn(n.deps, resolved)
  {
    hide AllIn;
    if remaining != [] {
      assert remaining == [remaining[0]] + remaining[1..];
      RoundDrops(remaining[1..], resolved, done);
    }
  }

  lemma {:induction false} LevelsWithin(remaining: seq<Node>, resolved: set<string>, levels: seq<seq<Node>>)
    requires LevelsOf(remaining, resolved) == Success(levels)
    ensures |Flatten(levels)| <= |remaining|
    decreases |remaining|
  {
    hide Flatten;
    if remaining == [] {
      FlattenNothing();
    } else {
      var ready := ReadyOf(remaining, resolved);
      var done := resolved + Ids(ready);
      SomethingReady(remaining, resolved);
      var rest := LevelsOf(Unresolved(remaining, done), done).value;
      ReadyHasIds(remaining, resolved);
      RoundDrops(remaining, resolved, done);
      LevelsWithin(Unresolved(remaining, done), done, rest);
      FlattenCons(ready, rest);
    }
  }

  lemma ReadyHasIds(remaining: seq<Node>, resolved: set<string>)
    ensures forall n :: n in remaining && AllIn(n.deps, resolved) ==> n.id in Ids(ReadyOf(remaining, resolved))
  {
    forall n | n in remaining && AllIn(n.deps, resolved) ensures n.id in Ids(ReadyOf(remaining, resolved)) {
      IdsHave(ReadyOf(remaining, resolved), n);
    }
  }

  /** One round, in both directions. */
  lemma RoundTogether(remaining: seq<Node>, resolved: set<string>)
    requires forall n :: n in remaining ==> n.id !in resolved
    ensures var done := NextResolved(remaining, resolved);
      Together(remaining, resolved)
      <==> NoneDropped(remaining, resolved, done) && Together(Unresolved(remaining, done), done)
  {
    hide AllIn, Ids, ReadyOf, Unresolved, SameRound;
    var ready := ReadyOf(remaining, resolved);
    var done := NextResolved(remaining, resolved);
    ReadyHasIds(remaining, resolved);
    if Together(remaining, resolved) {
      forall n | n in remaining && n.id in done ensures AllIn(n.deps, resolved) {
        var m := WithId(ready, n.id);
        ReadyFirst(m, n, remaining, resolved);
      }
      forall m, n | m in Unresolved(remaining, done) && n in Unresolved(remaining, done) && m.id == n.id
        ensures SameRound(m, n, Unresolved(remaining, done), done)
      {
        LaterRounds(m, n, remaining, resolved);
      }
    }
    if NoneDropped(remaining, resolved, done) && Together(Unresolved(remaining, done), done) {
      forall m, n | m in remaining && n in remaining && m.id == n.id ensures SameRound(m, n, remaining, resolved) {
        if m.id in done {
          BothReady(m, n, remaining, resolved);
        } else {
          assert SameRound(m, n, Unresolved(remaining, done), done);
          NotReadyFirst(remaining, resolved, m);
          NotReadyFirst(remaining, resolved, n);
          EarlierRounds(m, n, remaining, resolved);
        }
      }
    }
  }

  lemma WithId(nodes: seq<Node>, id: string) returns (m: Node)
    requires id in Ids(nodes)
    ensures m in nodes && m.id == id
  {
    var i :| 0 <= i < |nodes| && nodes[i].id == id;
    m := nodes[i];
  }

  lemma ReadyFirst(m: Node, n: Node, remaining: seq<Node>, resolved: set<string>)
    requires SameRound(m, n, remaining, resolved)
    ensures AllIn(m.deps, resolved) <==> AllIn(n.deps, resolved)
  {
    hide AllIn;
    assert ResolvedAfter(remaining, resolved, 0) == resolved;
  }

  lemma LaterRounds(m: Node, n: Node, remaining: seq<Node>, resolved: set<string>)
    requires SameRound(m, n, remaining, resolved)
    ensures var done := NextResolved(remaining, resolved); SameRound(m, n, Unresolved(remaining, done), done)
  {
    hide AllIn, Unresolved, NextResolved, ResolvedAfter;
    var done := NextResolved(remaining, resolved);
    forall l: nat
      ensures ResolvedAfter(Unresolved(remaining, done), done, l) == ResolvedAfter(remaining, resolved, l + 1)
    {
      RoundsLater(remaining, resolved, l);
    }
  }

  lemma EarlierRounds(m: Node, n: Node, remaining: seq<Node>, resolved: set<string>)
    requires var done := NextResolved(remaining, resolved); SameRound(m, n, Unresolved(remaining, done), done)
    requires AllIn(m.deps, resolved) <==> AllIn(n.deps, resolved)
    ensures SameRound(m, n, remaining, resolved)
  {
    hide AllIn, Unresolved, NextResolved, ResolvedAfter;
    var done := NextResolved(remaining, resolved);
    forall l: nat
      ensures AllIn(m.deps, ResolvedAfter(remaining, resolved, l))
         <==> AllIn(n.deps, ResolvedAfter(remaining, resolved, l))
    {
      if l > 0 {
        var k: nat := l - 1;
        RoundsLater(remaining, resolved, k);
        assert ResolvedAfter(remaining, resolved, l) == ResolvedAfter(Unresolved(remaining, done), done, k);
      } else {
        RoundsNone(remaining, resolved);
      }
    }
  }

  lemma RoundsNone(nodes: seq<Node>, done: set<string>)
    ensures ResolvedAfter(nodes, done, 0) == done
  {
  }

  /** What is ready stays ready. */
  lemma BothReady(m: Node, n: Node, remaining: seq<Node>, resolved: set<string>)
    requires AllIn(m.deps, resolved) && AllIn(n.deps, resolved)
    ensures SameRound(m, n, remaining, resolved)
  {
    hide ResolvedAfter;
    forall l: nat ensures resolved <= ResolvedAfter(remaining, resolved, l) {
      RoundsGrow(remaining, resolved, l);
    }
  }

  lemma NotReadyFirst(remaining: seq<Node>, resolved: set<string>, n: Node)
    requires n in remaining && n.id !in resolved + Ids(ReadyOf(remaining, resolved))
    ensures !AllIn(n.deps, resolved)
  {
    ReadyHasIds(remaining, resolved);
  }

  lemma CountRound(remaining: seq<Node>, ready: seq<Node>, later: seq<Node>, flat: seq<Node>, all: bool)
    requires |flat| <= |later| && |ready| + |later| <= |remaining| && (all <==> |ready| + |later| == |remaining|)
    requires all ==> multiset(remaining) == multiset(ready) + multiset(later)
    ensures multiset(ready + flat) == multiset(remaining) <==> all && multiset(flat) == multiset(later)
  {
    if multiset(ready + flat) == multiset(remaining) {
      EmptyPermutation(ready + flat, remaining);
      assert multiset(ready + flat) == multiset(ready) + multiset(flat);
      assert multiset(flat) == multiset(ready) + multiset(flat) - multiset(ready);
      assert multiset(later) == multiset(ready) + multiset(later) - multiset(ready);
    }
  }

  ghost predicate NoneDropped(remaining: seq<Node>, resolved: set<string>, done: set<string>) {
    forall n :: n in remaining && n.id in done ==> AllIn(n.deps, resolved)
  }

  /** A round keeps every node exactly when it drops none and the rest does. */
  lemma KeptRound(remaining: seq<Node>, resolved: set<string>, rest: seq<seq<Node>>)
    requires remaining != [] && ReadyOf(remaining, resolved) != []
    requires var done := resolved + Ids(ReadyOf(remaining, resolved));
      LevelsOf(Unresolved(remaining, done), done) == Success(rest)
    ensures var ready := ReadyOf(remaining, resolved);
      var done := resolved + Ids(ready);
      multiset(Flatten([ready] + rest)) == multiset(remaining)
      <==> NoneDropped(remaining, resolved, done) && multiset(Flatten(rest)) == multiset(Unresolved(remaining, done))
  {
    hide Flatten, AllIn, Ids, LevelsOf, ReadyOf, Unresolved;
    var ready := ReadyOf(remaining, resolved);
    var done := resolved + Ids(ready);
    ReadyHasIds(remaining, resolved);
    RoundDrops(remaining, resolved, done);
    LevelsWithin(Unresolved(remaining, done), done, rest);
    FlattenCons(ready, rest);
    if NoneDropped(remaining, resolved, done) {
      SplitRemaining(remaining, resolved, done);
    }
    CountRound(remaining, ready, Unresolved(remaining, done), Flatten(rest), NoneDropped(remaining, resolved, done));
  }

  lemma {:induction false} KeptIff(remaining: seq<Node>, resolved: set<string>, levels: seq<seq<Node>>)
    requires LevelsOf(remaining, resolved) == Success(levels)
    requires forall n :: n in remaining ==> n.id !in resolved
    ensures multiset(Flatten(levels)) == multiset(remaining) <==> Together(remaining, resolved)
    decreases |remaining|
  {
    hide Flatten, Together, AllIn, Ids, ReadyOf, Unresolved;
    if remaining == [] {
      FlattenNothing();
      NobodyTogether(resolved);
    } else {
      var ready := ReadyOf(remaining, resolved);
      var done := resolved + Ids(ready);
      SomethingReady(remaining, resolved);
      var later := Unresolved(remaining, done);
      var rest := LevelsOf(later, done).value;
      KeptRound(remaining, resolved, rest);
      RoundTogether(remaining, resolved);
      KeptIff(later, done, rest);
    }
  }

  lemma NobodyTogether(resolved: set<string>)
    ensures Together([], resolved)
  {
  }

  /** Repeated ids: every node is scheduled exactly when any two nodes with one
      id become ready in the same round. */
  lemma EveryNodeKeptIff(nodes: seq<Node>, levels: seq<seq<Node>>)
    requires LevellingOf(nodes) == Success(levels)
    ensures multiset(Flatten(levels)) == multiset(nodes) <==> Together(nodes, {})
  {
    hide Flatten, Together, LevelsOf;
    KeptIff(nodes, {}, levels);
  }

  /** A second node with an id that is already resolved is dropped without an
      error, and so is the cycle it was part of. */
  lemma DuplicateIsDropped(a: Node, again: Node, b: Node)
    requires a.deps == [] && again.id == a.id && again.deps == [b.id] && b.deps == [a.id] && a.id != b.id
    ensures Known([a, again, b]) && Cyclic([a, again, b])
    ensures LevellingOf([a, again, b]) == Success([[a], [b]])
  {
    hide ReadyOf, Unresolved, Cyclic, Known, Ids, AllIn, LevelsOf;
    var none: set<string> := {};
    var nodes := [a, again, b];
    assert nodes == [a] + [again, b] && [again, b] == [again] + [b] && [b] == [b] + [];
    TwoNodeCycle(a, again, b);
    IdsOfOne(a);
    IdsOfOne(b);
    FirstRound(a, again, b);
    SecondRound(a, again, b);
    LevelsRound([], nodes, none);
    LevelsRound([], [b], {a.id});
    LevelsEnd([], {a.id, b.id});
    AfterNothing(LevelsOf(nodes, none));
    AfterNothing(LevelsOf([b], {a.id}));
    assert none + {a.id} == {a.id} && {a.id} + {b.id} == {a.id, b.id};
    assert [] + [[a]] == [[a]] && [] + [[b]] == [[b]] && [[a]] + [[b]] == [[a], [b]];
    LevelsEnd([[b]], {a.id, b.id});
  }

  lemma FirstRound(a: Node, again: Node, b: Node)
    requires a.deps == [] && again.id == a.id && again.deps == [b.id] && b.deps == [a.id] && a.id != b.id
    ensures ReadyOf([a, again, b], {}) == [a] && Unresolved([a, again, b], {a.id}) == [b]
  {
    hide ReadyOf, Unresolved;
    var none: set<string> := {};
    assert [a, again, b] == [a] + [again, b] && [again, b] == [again] + [b] && [b] == [b] + [];
    NothingRemains({a.id});
    NothingRemains(none);
    NeverReady(again, b.id, none);
    NeverReady(b, a.id, none);
    ReadyStep(b, [], none);
    ReadyStep(again, [b], none);
    ReadyStep(a, [again, b], none);
    ReadyStep(b, [], {a.id});
    ReadyStep(again, [b], {a.id});
    ReadyStep(a, [again, b], {a.id});
  }

  lemma SecondRound(a: Node, again: Node, b: Node)
    requires b.deps == [a.id] && a.id != b.id
    ensures ReadyOf([b], {a.id}) == [b] && Unresolved([b], {a.id, b.id}) == []
  {
    hide ReadyOf, Unresolved;
    assert [b] == [b] + [];
    NothingRemains({a.id});
    NothingRemains({a.id, b.id});
    ReadyStep(b, [], {a.id});
    ReadyStep(b, [], {a.id, b.id});
  }

  lemma NeverReady(n: Node, d: string, resolved: set<string>)
    requires n.deps == [d] && d !in resolved
    ensures !AllIn(n.deps, resolved)
  {
    assert n.deps[0] == d;
  }

  lemma NothingRemains(resolved: set<string>)
    ensures ReadyOf([], resolved) == [] && Unresolved([], resolved) == []
  {
  }

  lemma TwoNodeCycle(a: Node, again: Node, b: Node)
    requires a.deps == [] && again.id == a.id && again.deps == [b.id] && b.deps == [a.id]
    ensures Known([a, again, b]) && Cyclic([a, again, b])
  {
    hide ReadyOf, Unresolved, AllIn;
    var nodes := [a, again, b];
    assert nodes[0].id in Ids(nodes) && nodes[2].id in Ids(nodes);
    assert nodes[1] in nodes && nodes[2] in nodes;
    assert again.deps[0] == b.id && b.deps[0] == a.id;
    var p := [a.id, b.id, a.id];
    assert DependsOn(nodes, p[0], p[1]) && DependsOn(nodes, p[1], p[2]);
    assert Chain(nodes, p);
  }

  // ---------- execution ----------

  /** The results a node's run receives: those of its dependencies. */
  function DepResults<V>(n: Node, results: map<string, V>): (received: map<string, V>)
    ensures forall d :: d in received <==> d in n.deps && d in results
    ensures forall d :: d in received ==> received[d] == results[d]
  {
    map d | d in n.deps && d in results :: results[d]
  }

  /** Every node has the value its run computes from its dependencies' values. */
  ghost predicate Solves<V>(nodes: seq<Node>, run: (Node, map<string, V>) -> V, results: map<string, V>) {
    forall n :: n in nodes ==> (
      n.id in results && AllIn(n.deps, results.Keys) && results[n.id] == run(n, DepResults(n, results)))
  }

  /** The node is given the results of all its dependencies, and of nothing else. */
  ghost predicate Receives<V>(n: Node, results: map<string, V>, received: map<string, V>) {
    && (forall d :: d in received <==> d in n.deps)
    && (forall d :: d in received ==> d in results && received[d] == results[d])
  }

  ghost predicate RanOnResults<V(!new)>(n: Node, run: (Node, map<string, V>) -> V, results: map<string, V>) {
    exists received :: Receives(n, results, received) && n.id in results && results[n.id] == run(n, received)
  }

  lemma SolvedRan<V(!new)>(nodes: seq<Node>, run: (Node, map<string, V>) -> V, results: map<string, V>)
    requires Solves(nodes, run, results)
    ensures forall n :: n in nodes ==> RanOnResults(n, run, results)
  {
    forall n | n in nodes ensures RanOnResults(n, run, results) {
      assert AllIn(n.deps, results.Keys);
      assert Receives(n, results, DepResults(n, results));
    }
  }

  lemma SameDepResults<V>(n: Node, a: map<string, V>, b: map<string, V>, done: set<string>)
    requires AllIn(n.deps, done) && done <= a.Keys && done <= b.Keys
    requires forall d :: d in done ==> a[d] == b[d]
    ensures DepResults(n, a) == DepResults(n, b)
  {
  }

  /** Whatever the order inside a level, there is only one outcome. */
  lemma {:induction false} OneOutcome<V>(levels: seq<seq<Node>>, run: (Node, map<string, V>) -> V,
                                         a: map<string, V>, b: map<string, V>)
    requires Layered(levels) && Solves(Flatten(levels), run, a) && Solves(Flatten(levels), run, b)
    ensures forall id :: id in Ids(Flatten(levels)) ==> id in a && id in b && a[id] == b[id]
  {
    hide Flatten, AllIn, NeedsOneOf, DepResults, LevelOk;
    if levels != [] {
      var last := |levels| - 1;
      var below := Ids(Flatten(levels[..last]));
      FlattenSplit(levels);
      LayeredPrefix(levels);
      OneOutcome(levels[..last], run, a, b);
      IdsOfConcat(Flatten(levels[..last]), levels[last]);
      forall id | id in Ids(levels[last]) ensures id in a && id in b && a[id] == b[id] {
        var i :| 0 <= i < |levels[last]| && levels[last][i].id == id;
        var n := levels[last][i];
        assert n in Flatten(levels);
        LevelDeps(levels, last, n);
        SameDepResults(n, a, b, below);
      }
    } else {
      FlattenNothing();
    }
  }

  lemma FlattenNothing()
    ensures Flatten([]) == []
  {
  }

  lemma FlattenSplit(levels: seq<seq<Node>>)
    requires levels != []
    ensures Flatten(levels) == Flatten(levels[..|levels| - 1]) + levels[|levels| - 1]
  {
  }

  lemma LayeredPrefix(levels: seq<seq<Node>>)
    requires levels != [] && Layered(levels)
    ensures Layered(levels[..|levels| - 1])
  {
    hide Flatten, AllIn, NeedsOneOf, Ids;
    var prefix := levels[..|levels| - 1];
    forall l | 0 <= l < |prefix| ensures LevelOk(prefix, l) {
      assert LevelOk(levels, l);
      assert prefix[..l] == levels[..l];
    }
  }

  lemma LevelDeps(levels: seq<seq<Node>>, l: nat, n: Node)
    requires Layered(levels) && l < |levels| && n in levels[l]
    ensures AllIn(n.deps, Ids(Flatten(levels[..l]))) && n.id !in Ids(Flatten(levels[..l]))
  {
    hide Flatten, AllIn, NeedsOneOf, Ids;
    assert LevelOk(levels, l);
  }

  lemma SolveOneMore<V>(done: seq<Node>, n: Node, run: (Node, map<string, V>) -> V, results: map<string, V>)
    requires Solves(done, run, results)
    requires n.id !in results && AllIn(n.deps, results.Keys)
    ensures Solves(done + [n], run, results[n.id := run(n, DepResults(n, results))])
  {
    hide DepResults;
    var after := results[n.id := run(n, DepResults(n, results))];
    assert forall d :: d in results ==> d in after && after[d] == results[d];
    forall m | m in done + [n] ensures DepResults(m, after) == DepResults(m, results) && AllIn(m.deps, after.Keys) {
      assert AllIn(m.deps, results.Keys);
      SameDepResults(m, after, results, results.Keys);
    }
  }

  lemma {:induction false} UniqueCount(nodes: seq<Node>, n: Node)
    requires UniqueIds(nodes)
    ensures multiset(nodes)[n] <= 1
  {
    if nodes != [] {
      var rest := nodes[1..];
      assert nodes == [nodes[0]] + rest;
      UniqueRest(nodes);
      UniqueCount(rest, n);
    }
  }

  lemma UniqueRest(nodes: seq<Node>)
    requires nodes != [] && UniqueIds(nodes)
    ensures UniqueIds(nodes[1..]) && nodes[0] !in nodes[1..]
  {
    forall j | 0 <= j < |nodes| - 1 ensures nodes[1..][j].id != nodes[0].id {
      var k := j + 1;
      assert nodes[0].id != nodes[k].id;
    }
  }

  lemma {:induction false} LevelInFlatten(levels: seq<seq<Node>>, l: nat)
    requires l < |levels|
    ensures multiset(levels[l]) <= multiset(Flatten(levels))
  {
    if l < |levels| - 1 {
      LevelInFlatten(levels[..|levels| - 1], l);
    }
  }

  /** With unique ids, a node still to be run has no result yet. */
  lemma NotRunYet(nodes: seq<Node>, levels: seq<seq<Node>>, l: nat, ran: seq<Node>, order: seq<Node>, n: Node)
    requires UniqueIds(nodes) && Levelling(nodes, levels) && l < |levels|
    requires multiset(ran) + multiset(order) == multiset(levels[l]) && n in order
    ensures n.id !in Ids(Flatten(levels[..l]) + ran)
  {
    hide Flatten, Layered, UniqueIds;
    assert n in multiset(levels[l]);
    LevelDeps(levels, l, n);
    IdsOfConcat(Flatten(levels[..l]), ran);
    if n.id in Ids(ran) {
      var i :| 0 <= i < |ran| && ran[i].id == n.id;
      LevelInFlatten(levels, l);
      assert ran[i] in multiset(ran) && n in multiset(order);
      assert ran[i] in multiset(nodes) && n in multiset(nodes);
      UniqueMeansSame(nodes, ran[i], n);
      UniqueCount(nodes, n);
      assert false;
    }
  }

  /** Runs the levels in order and the nodes of a level in any order. Every
      node finds all its dependencies' results; with unique ids the outcome is
      the one solution of the graph's equations. */
  method Execute<V(!new)>(nodes: seq<Node>, run: (Node, map<string, V>) -> V)
    returns (r: Result<map<string, V>, DagError>)
    ensures r == Failure(UnknownDependency) <==> !Known(nodes)
    ensures r == Failure(CycleDetected) ==> Cyclic(nodes)
    ensures UniqueIds(nodes) && Known(nodes) ==> (r == Failure(CycleDetected) <==> Cyclic(nodes))
    ensures r.Success? ==> r.value.Keys == Ids(nodes)
    ensures r.Success? && UniqueIds(nodes) ==> Solves(nodes, run, r.value)
    ensures r.Success? && UniqueIds(nodes) ==> forall n :: n in nodes ==> RanOnResults(n, run, r.value)
  {
    hide Known, Cyclic, Layered, UniqueIds, Solves, Flatten, Ids, AllIn, Levelling, DepResults, RanOnResults;
    var levelled := Levels(nodes);
    if levelled.Failure? {
      return Failure(levelled.error);
    }
    var levels := levelled.value;
    var results: map<string, V> := map[];
    NothingRun(levels, run);
    for l := 0 to |levels|
      invariant results.Keys == Ids(Flatten(levels[..l]))
      invariant UniqueIds(nodes) ==> Solves(Flatten(levels[..l]), run, results)
    {
      var order := levels[l];
      ghost var ran: seq<Node> := [];
      ghost var below := Flatten(levels[..l]);
      assert below + ran == below;
      while order != []
        invariant results.Keys == Ids(below + ran)
        invariant UniqueIds(nodes) ==> Solves(below + ran, run, results)
        invariant multiset(ran) + multiset(order) == multiset(levels[l])
        decreases |order|
      {
        var k: nat :| k < |order|;
        var n := order[k];
        DependenciesDone(levels, l, order, ran, n);
        assert AllIn(n.deps, results.Keys);
        if UniqueIds(nodes) {
          NotRunYet(nodes, levels, l, ran, order, n);
          SolveOneMore(below + ran, n, run, results);
        }
        assert below + (ran + [n]) == below + ran + [n];
        IdsOfConcat(below + ran, [n]);
        IdsOfOne(n);
        TakeOut(order, k);
        results := results[n.id := run(n, DepResults(n, results))];
        ran := ran + [n];
        order := order[..k] + order[k + 1..];
      }
      LevelRun(nodes, levels, l, ran, run, results);
    }
    assert levels[..|levels|] == levels;
    if UniqueIds(nodes) {
      SolvesPermutation(nodes, levels, run, results);
      SolvedRan(nodes, run, results);
    }
    return Success(results);
  }

  lemma NothingRun<V>(levels: seq<seq<Node>>, run: (Node, map<string, V>) -> V)
    ensures Ids(Flatten(levels[..0])) == {} && Solves(Flatten(levels[..0]), run, map[])
  {
    assert levels[..0] == [];
  }

  lemma IdsOfOne(n: Node)
    ensures Ids([n]) == {n.id}
  {
    assert [n][0].id == n.id;
  }

  lemma DependenciesDone(levels: seq<seq<Node>>, l: nat, order: seq<Node>, ran: seq<Node>, n: Node)
    requires Layered(levels) && l < |levels| && multiset(ran) + multiset(order) == multiset(levels[l]) && n in order
    ensures AllIn(n.deps, Ids(Flatten(levels[..l]) + ran))
  {
    hide Flatten, Layered, Ids;
    assert n in multiset(order);
    assert n in multiset(levels[l]);
    LevelDeps(levels, l, n);
    IdsOfConcat(Flatten(levels[..l]), ran);
  }

  lemma LevelRun<V>(nodes: seq<Node>, levels: seq<seq<Node>>, l: nat, ran: seq<Node>,
                    run: (Node, map<string, V>) -> V, results: map<string, V>)
    requires l < |levels| && multiset(ran) == multiset(levels[l])
    ensures Ids(Flatten(levels[..l]) + ran) == Ids(Flatten(levels[..l + 1]))
    ensures Solves(Flatten(levels[..l]) + ran, run, results) ==> Solves(Flatten(levels[..l + 1]), run, results)
  {
    hide Flatten, Ids, AllIn, DepResults;
    var below, upto := Flatten(levels[..l]), levels[..l + 1];
    assert upto[..l] == levels[..l];
    FlattenSplit(upto);
    IdsOfConcat(below, ran);
    IdsOfConcat(below, levels[l]);
    SameIds(ran, levels[l]);
    forall n ensures n in levels[l] <==> n in ran {
      assert n in multiset(levels[l]) <==> n in multiset(ran);
    }
  }

  lemma SameIds(a: seq<Node>, b: seq<Node>)
    requires multiset(a) == multiset(b)
    ensures Ids(a) == Ids(b)
  {
    forall i | 0 <= i < |a| ensures a[i].id in Ids(b) {
      assert a[i] in multiset(b);
    }
    forall i | 0 <= i < |b| ensures b[i].id in Ids(a) {
      assert b[i] in multiset(a);
    }
  }

  lemma SolvesPermutation<V>(nodes: seq<Node>, levels: seq<seq<Node>>,
                             run: (Node, map<string, V>) -> V, results: map<string, V>)
    requires Levelling(nodes, levels) && Solves(Flatten(levels), run, results)
    ensures Solves(nodes, run, results)
  {
    hide Flatten, Layered, Ids, AllIn, DepResults;
    forall n | n in nodes ensures n in Flatten(levels) {
      assert n in multiset(nodes);
    }
  }
}
