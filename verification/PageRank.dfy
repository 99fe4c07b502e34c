/** Personalized PageRank by power iteration, over the reals. */
module PageRank {

  type Vector = string -> real
  type Edges = seq<(string, real)>

  /** Out-edges per node, the restart nodes (repeats allowed), and the
      teleport probability. */
  datatype Walk = Walk(adjacency: map<string, Edges>, seeds: seq<string>, alpha: real)

  // ---------- sums over a finite set ----------

  ghost function Sum(s: set<string>, f: Vector): real {
    if s == {} then 0.0
    else
      var x :| x in s;
      f(x) + Sum(s - {x}, f)
  }

  lemma SumOfNothing(f: Vector)
    ensures Sum({}, f) == 0.0
  {
  }

  /** The order of summation does not matter. */
  lemma {:induction false} SumPick(s: set<string>, f: Vector, x: string)
    requires x in s
    ensures Sum(s, f) == f(x) + Sum(s - {x}, f)
  {
    var y :| y in s && Sum(s, f) == f(y) + Sum(s - {y}, f);
    if y != x {
      SumPick(s - {y}, f, x);
      SumPick(s - {x}, f, y);
      assert s - {y} - {x} == s - {x} - {y};
    }
  }

  lemma {:induction false} SumSame(s: set<string>, f: Vector, g: Vector)
    requires forall x :: x in s ==> f(x) == g(x)
    ensures Sum(s, f) == Sum(s, g)
  {
    if s != {} {
      var x :| x in s;
      SumPick(s, f, x);
      SumPick(s, g, x);
      SumSame(s - {x}, f, g);
    } else {
      SumOfNothing(f);
      SumOfNothing(g);
    }
  }

  lemma {:induction false} SumBelow(s: set<string>, f: Vector, g: Vector)
    requires forall x :: x in s ==> f(x) <= g(x)
    ensures Sum(s, f) <= Sum(s, g)
  {
    if s != {} {
      var x :| x in s;
      SumPick(s, f, x);
      SumPick(s, g, x);
      SumBelow(s - {x}, f, g);
    } else {
      SumOfNothing(f);
      SumOfNothing(g);
    }
  }

  ghost function Plus(f: Vector, g: Vector): Vector {
    x => f(x) + g(x)
  }

  lemma {:induction false} SumPlus(s: set<string>, f: Vector, g: Vector)
    ensures Sum(s, Plus(f, g)) == Sum(s, f) + Sum(s, g)
  {
    if s != {} {
      var x :| x in s;
      SumPick(s, f, x);
      SumPick(s, g, x);
      SumPick(s, Plus(f, g), x);
      SumPlus(s - {x}, f, g);
    }
  }

  ghost function Scaled(c: real, f: Vector): Vector {
    x => c * f(x)
  }

  lemma {:induction false} SumScaled(s: set<string>, c: real, f: Vector)
    ensures Sum(s, Scaled(c, f)) == c * Sum(s, f)
  {
    if s != {} {
      var x :| x in s;
      SumPick(s, f, x);
      SumPick(s, Scaled(c, f), x);
      SumScaled(s - {x}, c, f);
      Spread(c, f(x), Sum(s - {x}, f));
    } else {
      SumOfNothing(f);
      SumOfNothing(Scaled(c, f));
    }
  }

  lemma Spread(c: real, a: real, b: real)
    ensures c * (a + b) == c * a + c * b
  {
  }

  ghost function Zero(): Vector {
    x => 0.0
  }

  lemma {:induction false} SumZero(s: set<string>)
    ensures Sum(s, Zero()) == 0.0
  {
    if s != {} {
      var x :| x in s;
      SumPick(s, Zero(), x);
      SumZero(s - {x});
    }
  }

  function Abs(x: real): real {
    if x < 0.0 then -x else x
  }

  ghost function Dist(f: Vector, g: Vector): Vector {
    x => Abs(f(x) - g(x))
  }

  lemma {:induction false} SumTriangle(s: set<string>, f: Vector, g: Vector)
    ensures Abs(Sum(s, f) - Sum(s, g)) <= Sum(s, Dist(f, g))
  {
    if s != {} {
      var x :| x in s;
      SumPick(s, f, x);
      SumPick(s, g, x);
      SumPick(s, Dist(f, g), x);
      SumTriangle(s - {x}, f, g);
    } else {
      SumOfNothing(f);
      SumOfNothing(g);
      SumOfNothing(Dist(f, g));
    }
  }

  // ---------- double sums ----------

  type Matrix = (string, string) -> real

  ghost function RowOf(m: Matrix, x: string): Vector {
    y => m(x, y)
  }

  ghost function ColumnOf(m: Matrix, y: string): Vector {
    x => m(x, y)
  }

  ghost function RowSums(m: Matrix, t: set<string>): Vector {
    x => Sum(t, RowOf(m, x))
  }

  ghost function ColumnSums(m: Matrix, s: set<string>): Vector {
    y => Sum(s, ColumnOf(m, y))
  }

  lemma {:induction false} SumsSwap(m: Matrix, s: set<string>, t: set<string>)
    ensures Sum(s, RowSums(m, t)) == Sum(t, ColumnSums(m, s))
  {
    hide Sum;
    if s == {} {
      SumOfNothing(RowSums(m, t));
      forall y | y in t ensures ColumnSums(m, s)(y) == Zero()(y) {
        SumOfNothing(ColumnOf(m, y));
      }
      SumSame(t, ColumnSums(m, s), Zero());
      SumZero(t);
    } else {
      var x :| x in s;
      SumPick(s, RowSums(m, t), x);
      SumsSwap(m, s - {x}, t);
      var parts := Plus(RowOf(m, x), ColumnSums(m, s - {x}));
      forall y | y in t ensures ColumnSums(m, s)(y) == parts(y) {
        SumPick(s, ColumnOf(m, y), x);
      }
      SumSame(t, ColumnSums(m, s), parts);
      SumPlus(t, RowOf(m, x), ColumnSums(m, s - {x}));
    }
  }

  // ---------- the walk ----------

  function Total(outs: Edges): real {
    if outs == [] then 0.0 else Total(outs[..|outs| - 1]) + outs[|outs| - 1].1
  }

  /** The weight that parallel edges carry to v together. */
  function TotalTo(outs: Edges, v: string): real {
    if outs == [] then 0.0
    else
      var e := outs[|outs| - 1];
      TotalTo(outs[..|outs| - 1], v) + (if e.0 == v then e.1 else 0.0)
  }

  function Outs(w: Walk, u: string): Edges {
    if u in w.adjacency then w.adjacency[u] else []
  }

  function Targets(outs: Edges): set<string> {
    set k | 0 <= k < |outs| :: outs[k].0
  }

  function Nodes(w: Walk): set<string> {
    w.adjacency.Keys
    + (set u, k | u in w.adjacency && 0 <= k < |w.adjacency[u]| :: w.adjacency[u][k].0)
    + (set i | 0 <= i < |w.seeds| :: w.seeds[i])
  }

  /** Every occurrence of a seed carries an equal part. */
  function SeedEdges(seeds: seq<string>): (outs: Edges)
    ensures |outs| == |seeds|
  {
    seq(|seeds|, i requires 0 <= i < |seeds| => (seeds[i], 1.0 / |seeds| as real))
  }

  function Restart(w: Walk, v: string): real {
    TotalTo(SeedEdges(w.seeds), v)
  }

  /** Where a step from u goes: along its edges in proportion to their weight,
      or back to the seeds when they carry none. */
  function Share(w: Walk, u: string, v: string): real {
    var outs := Outs(w, u);
    if Total(outs) <= 0.0 then Restart(w, v) else TotalTo(outs, v) / Total(outs)
  }

  ghost function Moves(w: Walk, p: Vector): Matrix {
    (u, v) => (1.0 - w.alpha) * p(u) * Share(w, u, v)
  }

  ghost function RestartVector(w: Walk): Vector {
    v => Restart(w, v)
  }

  /** One step: teleport with probability alpha, otherwise move on. */
  ghost function Step(w: Walk, p: Vector): Vector {
    v => w.alpha * Restart(w, v) + Sum(Nodes(w), ColumnOf(Moves(w, p), v))
  }

  ghost function Iterate(w: Walk, p: Vector, n: nat): Vector {
    if n == 0 then p else Step(w, Iterate(w, p, n - 1))
  }

  /** The score after n iterations. */
  ghost function Score(w: Walk, n: nat): Vector {
    Iterate(w, RestartVector(w), n)
  }

  ghost predicate Weighted(w: Walk) {
    && w.seeds != []
    && 0.0 <= w.alpha <= 1.0
    && forall u, k :: u in w.adjacency && 0 <= k < |w.adjacency[u]| ==> w.adjacency[u][k].1 >= 0.0
  }

  ghost predicate NonNegative(s: set<string>, p: Vector) {
    forall v :: v in s ==> p(v) >= 0.0
  }

  ghost predicate Distribution(w: Walk, p: Vector) {
    NonNegative(Nodes(w), p) && Sum(Nodes(w), p) == 1.0
  }

  // ---------- what weights and repeated seeds mean ----------

  function EvenEdges(seeds: seq<string>, part: real): (outs: Edges)
    ensures |outs| == |seeds| && forall i :: 0 <= i < |seeds| ==> outs[i] == (seeds[i], part)
  {
    seq(|seeds|, i requires 0 <= i < |seeds| => (seeds[i], part))
  }

  lemma LastEdge(seeds: seq<string>, part: real, v: string)
    requires seeds != []
    ensures var n := |seeds| - 1;
      && TotalTo(EvenEdges(seeds, part), v)
         == TotalTo(EvenEdges(seeds[..n], part), v) + (if seeds[n] == v then part else 0.0)
      && multiset(seeds)[v] == multiset(seeds[..n])[v] + (if seeds[n] == v then 1 else 0)
  {
    var n := |seeds| - 1;
    assert EvenEdges(seeds, part)[..n] == EvenEdges(seeds[..n], part);
    assert seeds == seeds[..n] + [seeds[n]];
  }

  lemma {:induction false} EvenTotals(seeds: seq<string>, part: real, v: string)
    ensures TotalTo(EvenEdges(seeds, part), v) == multiset(seeds)[v] as real * part
  {
    hide EvenEdges, TotalTo;
    if seeds == [] {
      NoTotal(EvenEdges(seeds, part), v);
    } else {
      var n := |seeds| - 1;
      EvenTotals(seeds[..n], part, v);
      LastEdge(seeds, part, v);
      OneMore(multiset(seeds[..n])[v], part);
    }
  }

  lemma NoTotal(outs: Edges, v: string)
    ensures outs == [] ==> TotalTo(outs, v) == 0.0
  {
  }

  lemma OneMore(m: nat, part: real)
    ensures (m + 1) as real * part == m as real * part + part
  {
  }

  /** A seed counts as often as it is named. */
  lemma RestartCounts(w: Walk, v: string)
    requires w.seeds != []
    ensures Restart(w, v) * |w.seeds| as real == multiset(w.seeds)[v] as real
  {
    hide TotalTo;
    var n := |w.seeds|;
    EvenTotals(w.seeds, 1.0 / n as real, v);
    assert SeedEdges(w.seeds) == EvenEdges(w.seeds, 1.0 / n as real);
    PartTimesWhole(multiset(w.seeds)[v] as real, n as real);
  }

  lemma PartTimesWhole(x: real, n: real)
    requires n > 0.0
    ensures x * (1.0 / n) * n == x
  {
    assert (1.0 / n) * n == 1.0;
  }

  lemma {:induction false} LoneEdge(outs: Edges, v: string, i: nat)
    requires i < |outs| && forall j :: 0 <= j < |outs| && j != i ==> outs[j].0 != v
    ensures TotalTo(outs, v) == if outs[i].0 == v then outs[i].1 else 0.0
  {
    var n := |outs| - 1;
    if i < n {
      LoneEdge(outs[..n], v, i);
    } else if n > 0 {
      LoneEdge(outs[..n], v, 0);
    }
  }

  /** One iteration from a single seed: a neighbour that one edge reaches gets what
      does not teleport, in proportion to the weight of that edge. */
  lemma FirstIterationByWeight(w: Walk, seed: string, i: nat)
    requires w.seeds == [seed] && i < |Outs(w, seed)| && Total(Outs(w, seed)) > 0.0
    requires var outs := Outs(w, seed);
      outs[i].0 != seed && forall j :: 0 <= j < |outs| && j != i ==> outs[j].0 != outs[i].0
    ensures var outs := Outs(w, seed);
      Score(w, 1)(outs[i].0) * Total(outs) == (1.0 - w.alpha) * outs[i].1
  {
    hide Sum, Nodes, Total, Restart;
    var outs := Outs(w, seed);
    var v, total := outs[i].0, Total(outs);
    OneSeed(w, seed, v);
    LoneEdge(outs, v, i);
    var p := RestartVector(w);
    var c := (1.0 - w.alpha) * (outs[i].1 / total);
    forall u | u in Nodes(w) ensures ColumnOf(Moves(w, p), v)(u) == Spike(seed, c)(u) {
      OneSeed(w, seed, u);
    }
    SeedIsNode(w, 0);
    SumSame(Nodes(w), ColumnOf(Moves(w, p), v), Spike(seed, c));
    SumSpike(Nodes(w), seed, c);
    assert Iterate(w, p, 0) == p && Iterate(w, p, 1) == Step(w, Iterate(w, p, 0));
    assert w.alpha * Restart(w, v) == 0.0;
    assert c * total == (1.0 - w.alpha) * outs[i].1 by {
      assert (outs[i].1 / total) * total == outs[i].1;
    }
  }

  lemma OneSeed(w: Walk, seed: string, v: string)
    requires w.seeds == [seed]
    ensures Restart(w, v) == if v == seed then 1.0 else 0.0
  {
    assert SeedEdges([seed]) == [(seed, 1.0)] && [(seed, 1.0)][..0] == [];
    assert TotalTo([(seed, 1.0)], v) == TotalTo([], v) + (if seed == v then 1.0 else 0.0);
  }

  // ---------- the shares of a node sum to one ----------

  ghost function ToVector(outs: Edges): Vector {
    v => TotalTo(outs, v)
  }

  ghost function Spike(x: string, c: real): Vector {
    v => if v == x then c else 0.0
  }

  lemma SumSpike(s: set<string>, x: string, c: real)
    requires x in s
    ensures Sum(s, Spike(x, c)) == c
  {
    hide Sum;
    SumPick(s, Spike(x, c), x);
    SumSame(s - {x}, Spike(x, c), Zero());
    SumZero(s - {x});
  }

  lemma {:induction false} TotalsAddUp(s: set<string>, outs: Edges)
    requires Targets(outs) <= s
    ensures Sum(s, ToVector(outs)) == Total(outs)
  {
    hide Sum;
    if outs == [] {
      SumSame(s, ToVector(outs), Zero());
      SumZero(s);
    } else {
      var rest, e := outs[..|outs| - 1], outs[|outs| - 1];
      assert outs[|outs| - 1].0 in Targets(outs);
      forall x | x in Targets(rest) ensures x in s {
        var k :| 0 <= k < |rest| && rest[k].0 == x;
        assert outs[k].0 in Targets(outs);
      }
      TotalsAddUp(s, rest);
      SumSame(s, ToVector(outs), Plus(ToVector(rest), Spike(e.0, e.1)));
      SumPlus(s, ToVector(rest), Spike(e.0, e.1));
      SumSpike(s, e.0, e.1);
    }
  }

  lemma {:induction false} TotalOfEqualParts(outs: Edges, part: real)
    requires forall k :: 0 <= k < |outs| ==> outs[k].1 == part
    ensures Total(outs) == |outs| as real * part
  {
    if outs != [] {
      TotalOfEqualParts(outs[..|outs| - 1], part);
    }
  }

  lemma WholeOfParts(n: nat)
    requires n > 0
    ensures n as real * (1.0 / n as real) == 1.0
  {
  }

  lemma SeedsAreNodes(w: Walk)
    ensures Targets(SeedEdges(w.seeds)) <= Nodes(w)
  {
    var outs := SeedEdges(w.seeds);
    forall x | x in Targets(outs) ensures x in Nodes(w) {
      var k :| 0 <= k < |outs| && outs[k].0 == x;
      assert w.seeds[k] == x;
    }
  }

  lemma TargetsAreNodes(w: Walk, u: string)
    ensures Targets(Outs(w, u)) <= Nodes(w)
  {
    var outs := Outs(w, u);
    forall x | x in Targets(outs) ensures x in Nodes(w) {
      var k :| 0 <= k < |outs| && outs[k].0 == x;
      assert w.adjacency[u][k].0 == x;
    }
  }

  lemma RestartSumsToOne(w: Walk)
    requires w.seeds != []
    ensures Sum(Nodes(w), RestartVector(w)) == 1.0
  {
    hide Sum, Nodes;
    var outs := SeedEdges(w.seeds);
    SeedsAreNodes(w);
    TotalsAddUp(Nodes(w), outs);
    SumSame(Nodes(w), RestartVector(w), ToVector(outs));
    TotalOfEqualParts(outs, 1.0 / |w.seeds| as real);
    WholeOfParts(|w.seeds|);
  }

  ghost function ShareOf(w: Walk, u: string): Vector {
    v => Share(w, u, v)
  }

  lemma SharesSumToOne(w: Walk, u: string)
    requires w.seeds != []
    ensures Sum(Nodes(w), ShareOf(w, u)) == 1.0
  {
    hide Sum, Nodes, Total, TotalTo;
    var outs := Outs(w, u);
    var total := Total(outs);
    if total <= 0.0 {
      RestartSumsToOne(w);
      SumSame(Nodes(w), ShareOf(w, u), RestartVector(w));
    } else {
      var c := 1.0 / total;
      forall v | v in Nodes(w) ensures ShareOf(w, u)(v) == Scaled(c, ToVector(outs))(v) {
        Quotient(TotalTo(outs, v), total);
      }
      SumSame(Nodes(w), ShareOf(w, u), Scaled(c, ToVector(outs)));
      SumScaled(Nodes(w), c, ToVector(outs));
      TargetsAreNodes(w, u);
      TotalsAddUp(Nodes(w), outs);
      Quotient(total, total);
    }
  }

  lemma Quotient(a: real, b: real)
    requires b > 0.0
    ensures a / b == (1.0 / b) * a
    ensures a == b ==> a / b == 1.0
  {
  }

  /** The part of a mass that is not teleported. */
  ghost function Kept(alpha: real, mass: real): real {
    (1.0 - alpha) * mass
  }

  /** What leaves the nodes arrives somewhere. */
  lemma MovedMass(w: Walk, p: Vector)
    requires w.seeds != []
    ensures Sum(Nodes(w), ColumnSums(Moves(w, p), Nodes(w))) == Kept(w.alpha, Sum(Nodes(w), p))
  {
    hide Sum, Nodes, Share;
    var m, nodes := Moves(w, p), Nodes(w);
    SumsSwap(m, nodes, nodes);
    forall u | u in nodes ensures RowSums(m, nodes)(u) == Scaled(1.0 - w.alpha, p)(u) {
      var c := (1.0 - w.alpha) * p(u);
      SumSame(nodes, RowOf(m, u), Scaled(c, ShareOf(w, u)));
      SumScaled(nodes, c, ShareOf(w, u));
      SharesSumToOne(w, u);
    }
    SumSame(nodes, RowSums(m, nodes), Scaled(1.0 - w.alpha, p));
    SumScaled(nodes, 1.0 - w.alpha, p);
  }

  // ---------- conservation ----------

  lemma StepMass(w: Walk, p: Vector)
    requires w.seeds != []
    ensures Sum(Nodes(w), Step(w, p)) == w.alpha + Kept(w.alpha, Sum(Nodes(w), p))
  {
    hide Sum, Nodes, Share, Restart, Kept;
    var nodes := Nodes(w);
    var teleported := Scaled(w.alpha, RestartVector(w));
    var moved := ColumnSums(Moves(w, p), nodes);
    SumSame(nodes, Step(w, p), Plus(teleported, moved));
    SumPlus(nodes, teleported, moved);
    SumScaled(nodes, w.alpha, RestartVector(w));
    RestartSumsToOne(w);
    MovedMass(w, p);
  }

  lemma {:induction false} TotalToNonNegative(outs: Edges, v: string)
    requires forall k :: 0 <= k < |outs| ==> outs[k].1 >= 0.0
    ensures TotalTo(outs, v) >= 0.0
  {
    if outs != [] {
      TotalToNonNegative(outs[..|outs| - 1], v);
    }
  }

  lemma RestartNonNegative(w: Walk, v: string)
    ensures Restart(w, v) >= 0.0
  {
    TotalToNonNegative(SeedEdges(w.seeds), v);
  }

  lemma ShareNonNegative(w: Walk, u: string, v: string)
    requires Weighted(w)
    ensures Share(w, u, v) >= 0.0
  {
    RestartNonNegative(w, v);
    TotalToNonNegative(Outs(w, u), v);
    if Total(Outs(w, u)) > 0.0 {
      QuotientSign(TotalTo(Outs(w, u), v), Total(Outs(w, u)));
    }
  }

  lemma QuotientSign(a: real, b: real)
    requires a >= 0.0 && b > 0.0
    ensures a / b >= 0.0
    ensures a / b > 0.0 <==> a > 0.0
  {
  }

  lemma ProductSign(a: real, b: real, c: real)
    requires a >= 0.0 && b >= 0.0 && c >= 0.0
    ensures a * b * c >= 0.0
    ensures a * b * c > 0.0 <==> a > 0.0 && b > 0.0 && c > 0.0
  {
  }

  lemma MovesNonNegative(w: Walk, p: Vector, u: string, v: string)
    requires Weighted(w) && p(u) >= 0.0
    ensures Moves(w, p)(u, v) >= 0.0
  {
    hide Share;
    ShareNonNegative(w, u, v);
    ProductSign(1.0 - w.alpha, p(u), Share(w, u, v));
  }

  lemma SumNonNegative(s: set<string>, f: Vector)
    requires NonNegative(s, f)
    ensures Sum(s, f) >= 0.0
  {
    SumBelow(s, Zero(), f);
    SumZero(s);
  }

  /** A step maps distributions to distributions. */
  lemma StepKeepsDistribution(w: Walk, p: Vector)
    requires Weighted(w) && Distribution(w, p)
    ensures Distribution(w, Step(w, p))
  {
    hide Sum, Nodes, Share, Restart, Moves;
    StepMass(w, p);
    forall v | v in Nodes(w) ensures Step(w, p)(v) >= 0.0 {
      RestartNonNegative(w, v);
      forall u | u in Nodes(w) ensures ColumnOf(Moves(w, p), v)(u) >= 0.0 {
        MovesNonNegative(w, p, u, v);
      }
      SumNonNegative(Nodes(w), ColumnOf(Moves(w, p), v));
    }
  }

  lemma RestartIsDistribution(w: Walk)
    requires Weighted(w)
    ensures Distribution(w, RestartVector(w))
  {
    hide Sum, Nodes, Restart;
    RestartSumsToOne(w);
    forall v | v in Nodes(w) ensures RestartVector(w)(v) >= 0.0 {
      RestartNonNegative(w, v);
    }
  }

  lemma {:induction false} IteratesAreDistributions(w: Walk, p: Vector, n: nat)
    requires Weighted(w) && Distribution(w, p)
    ensures Distribution(w, Iterate(w, p, n))
  {
    hide Distribution, Weighted, Step;
    if n > 0 {
      IteratesAreDistributions(w, p, n - 1);
      StepKeepsDistribution(w, Iterate(w, p, n - 1));
    }
  }

  /** Conservation: every iterate is non-negative and sums to exactly one,
      dangling nodes, parallel edges and repeated seeds included. */
  lemma ScoresAreDistributions(w: Walk, n: nat)
    requires Weighted(w)
    ensures Distribution(w, Score(w, n))
  {
    hide Distribution, Weighted;
    RestartIsDistribution(w);
    IteratesAreDistributions(w, RestartVector(w), n);
  }

  // ---------- contraction ----------

  ghost function Distance(w: Walk, p: Vector, q: Vector): real {
    Sum(Nodes(w), Dist(p, q))
  }

  lemma Rearranged(a: real, p: real, b: real)
    ensures a * p * b == (a * b) * p
  {
  }

  lemma AbsScaled(c: real, d: real, z: real)
    requires c >= 0.0 && z == c * d
    ensures Abs(z) == c * Abs(d)
  {
    if d < 0.0 {
      ProductNonNegative(c, -d);
      assert c * -d == -z;
    } else {
      ProductNonNegative(c, d);
    }
  }

  lemma ProductNonNegative(a: real, b: real)
    requires a >= 0.0 && b >= 0.0
    ensures a * b >= 0.0
  {
  }

  lemma ScaledDistance(a: real, b: real, p: real, q: real, x: real, y: real)
    requires a >= 0.0 && b >= 0.0 && x == a * p * b && y == a * q * b
    ensures Abs(x - y) == a * Abs(p - q) * b
  {
    hide Abs;
    var c, d := a * b, p - q;
    ProductNonNegative(a, b);
    Rearranged(a, p, b);
    Rearranged(a, q, b);
    Rearranged(a, Abs(d), b);
    Spread(c, p, -q);
    AbsScaled(c, d, x - y);
  }

  lemma MovesDistance(w: Walk, p: Vector, q: Vector, u: string, v: string)
    requires Weighted(w)
    ensures Abs(Moves(w, p)(u, v) - Moves(w, q)(u, v)) == Moves(w, Dist(p, q))(u, v)
  {
    hide Share, Abs;
    var a, b := 1.0 - w.alpha, Share(w, u, v);
    ShareNonNegative(w, u, v);
    ScaledDistance(a, b, p(u), q(u), Moves(w, p)(u, v), Moves(w, q)(u, v));
    assert Dist(p, q)(u) == Abs(p(u) - q(u));
  }

  lemma StepPointDistance(w: Walk, p: Vector, q: Vector, v: string)
    requires Weighted(w)
    ensures Dist(Step(w, p), Step(w, q))(v) <= ColumnSums(Moves(w, Dist(p, q)), Nodes(w))(v)
  {
    hide Sum, Nodes, Moves, Restart, Abs;
    var fp, fq := ColumnOf(Moves(w, p), v), ColumnOf(Moves(w, q), v);
    SumTriangle(Nodes(w), fp, fq);
    var moved := ColumnOf(Moves(w, Dist(p, q)), v);
    forall u | u in Nodes(w) ensures Dist(fp, fq)(u) == moved(u) {
      MovesDistance(w, p, q, u, v);
    }
    SumSame(Nodes(w), Dist(fp, fq), moved);
  }

  /** A step shrinks the distance of any two vectors by 1 - alpha. */
  lemma StepContracts(w: Walk, p: Vector, q: Vector)
    requires Weighted(w)
    ensures Distance(w, Step(w, p), Step(w, q)) <= Kept(w.alpha, Distance(w, p, q))
  {
    hide Sum, Nodes, Step, Moves, Abs, Dist, Kept;
    var moved := ColumnSums(Moves(w, Dist(p, q)), Nodes(w));
    forall v | v in Nodes(w) ensures Dist(Step(w, p), Step(w, q))(v) <= moved(v) {
      StepPointDistance(w, p, q, v);
    }
    SumBelow(Nodes(w), Dist(Step(w, p), Step(w, q)), moved);
    MovedMass(w, Dist(p, q));
  }

  ghost function Power(b: real, n: nat): real {
    if n == 0 then 1.0 else b * Power(b, n - 1)
  }

  lemma ScaleBound(c: real, a: real, b: real, d: real)
    requires c >= 0.0 && a <= b * d
    ensures c * a <= (c * b) * d
  {
    assert c * (b * d - a) >= 0.0;
  }

  lemma {:induction false} IteratesContract(w: Walk, p: Vector, q: Vector, n: nat)
    requires Weighted(w)
    ensures Distance(w, Iterate(w, p, n), Iterate(w, q, n)) <= Power(1.0 - w.alpha, n) * Distance(w, p, q)
  {
    hide Distance, Step;
    if n > 0 {
      var pn, qn := Iterate(w, p, n - 1), Iterate(w, q, n - 1);
      IteratesContract(w, p, q, n - 1);
      StepContracts(w, pn, qn);
      ScaleBound(1.0 - w.alpha, Distance(w, pn, qn), Power(1.0 - w.alpha, n - 1), Distance(w, p, q));
    }
  }

  lemma DistributionsAreNear(w: Walk, p: Vector, q: Vector)
    requires Distribution(w, p) && Distribution(w, q)
    ensures Distance(w, p, q) <= 2.0
  {
    hide Sum, Nodes;
    SumBelow(Nodes(w), Dist(p, q), Plus(p, q));
    SumPlus(Nodes(w), p, q);
  }

  lemma {:induction false} PowerNonNegative(b: real, n: nat)
    requires b >= 0.0
    ensures Power(b, n) >= 0.0
  {
    if n > 0 {
      PowerNonNegative(b, n - 1);
    }
  }

  lemma IteratesConverge(w: Walk, p: Vector, q: Vector, n: nat)
    requires Weighted(w) && Distribution(w, p) && Distribution(w, q)
    ensures Distance(w, Iterate(w, p, n), Iterate(w, q, n)) <= 2.0 * Power(1.0 - w.alpha, n)
  {
    hide Distance, Distribution, Iterate;
    IteratesContract(w, p, q, n);
    DistributionsAreNear(w, p, q);
    PowerNonNegative(1.0 - w.alpha, n);
    var c, d := Power(1.0 - w.alpha, n), Distance(w, p, q);
    assert c * (2.0 - d) >= 0.0;
  }

  ghost predicate Stationary(w: Walk, q: Vector) {
    forall v :: v in Nodes(w) ==> Step(w, q)(v) == q(v)
  }

  lemma StepReadsNodes(w: Walk, p: Vector, q: Vector, v: string)
    requires forall u :: u in Nodes(w) ==> p(u) == q(u)
    ensures Step(w, p)(v) == Step(w, q)(v)
  {
    hide Sum, Nodes, Share, Restart;
    SumSame(Nodes(w), ColumnOf(Moves(w, p), v), ColumnOf(Moves(w, q), v));
  }

  lemma {:induction false} StationaryStays(w: Walk, q: Vector, n: nat)
    requires Stationary(w, q)
    ensures forall v :: v in Nodes(w) ==> Iterate(w, q, n)(v) == q(v)
  {
    hide Step, Nodes;
    if n > 0 {
      StationaryStays(w, q, n - 1);
      forall v | v in Nodes(w) ensures Iterate(w, q, n)(v) == q(v) {
        StepReadsNodes(w, Iterate(w, q, n - 1), q, v);
      }
    }
  }

  // ---------- stationary vectors ----------

  lemma DistanceTriangle(w: Walk, p: Vector, q: Vector, r: Vector)
    ensures Distance(w, p, r) <= Distance(w, p, q) + Distance(w, q, r)
  {
    hide Sum, Nodes;
    SumBelow(Nodes(w), Dist(p, r), Plus(Dist(p, q), Dist(q, r)));
    SumPlus(Nodes(w), Dist(p, q), Dist(q, r));
  }

  lemma StationaryStep(w: Walk, q: Vector, r: Vector)
    requires Stationary(w, q)
    ensures Sum(Nodes(w), Step(w, q)) == Sum(Nodes(w), q) && Distance(w, Step(w, q), r) == Distance(w, q, r)
    ensures Distance(w, r, Step(w, q)) == Distance(w, r, q)
  {
    hide Sum, Nodes, Step;
    SumSame(Nodes(w), Step(w, q), q);
    SumSame(Nodes(w), Dist(Step(w, q), r), Dist(q, r));
    SumSame(Nodes(w), Dist(r, Step(w, q)), Dist(r, q));
  }

  /** A step from nothing is the teleported mass alone. */
  lemma StepFromNothing(w: Walk)
    requires Weighted(w)
    ensures Distance(w, Step(w, Zero()), Zero()) == w.alpha
  {
    hide Sum, Nodes, Restart, Share;
    StepMass(w, Zero());
    SumZero(Nodes(w));
    forall v | v in Nodes(w) ensures Dist(Step(w, Zero()), Zero())(v) == Step(w, Zero())(v) {
      RestartNonNegative(w, v);
      ProductNonNegative(w.alpha, Restart(w, v));
      SumSame(Nodes(w), ColumnOf(Moves(w, Zero()), v), Zero());
    }
    SumSame(Nodes(w), Dist(Step(w, Zero()), Zero()), Step(w, Zero()));
  }

  /** Totals that repeat under a step. */
  lemma OnlySolution(alpha: real, x: real)
    requires alpha > 0.0
    ensures x == alpha + Kept(alpha, x) ==> x == 1.0
    ensures x <= alpha + Kept(alpha, x) ==> x <= 1.0
    ensures x <= Kept(alpha, x) ==> x <= 0.0
  {
    assert (1.0 - alpha) * x == x - alpha * x;
    assert alpha * (x - 1.0) == alpha * x - alpha;
    if x > 1.0 {
      PositiveProduct(alpha, x - 1.0);
    }
    if x < 1.0 {
      PositiveProduct(alpha, 1.0 - x);
      assert alpha * (1.0 - x) == alpha - alpha * x;
    }
    if x > 0.0 {
      PositiveProduct(alpha, x);
    }
  }

  /** With teleporting, whatever a step leaves alone is a distribution. */
  lemma StationaryIsDistribution(w: Walk, q: Vector)
    requires Weighted(w) && w.alpha > 0.0 && Stationary(w, q)
    ensures Distribution(w, q)
  {
    hide Sum, Nodes, Step, Stationary, Abs, Kept;
    StepMass(w, q);
    StationaryStep(w, q, Step(w, Zero()));
    OnlySolution(w.alpha, Sum(Nodes(w), q));
    StepContracts(w, q, Zero());
    StepFromNothing(w);
    DistanceTriangle(w, q, Step(w, Zero()), Zero());
    OnlySolution(w.alpha, Distance(w, q, Zero()));
    MassWithoutSigns(w, q);
  }

  lemma MassWithoutSigns(w: Walk, q: Vector)
    requires Sum(Nodes(w), q) == 1.0 && Distance(w, q, Zero()) <= 1.0
    ensures NonNegative(Nodes(w), q)
  {
    hide Sum, Nodes;
    var excess := Plus(Dist(q, Zero()), Scaled(-1.0, q));
    SumPlus(Nodes(w), Dist(q, Zero()), Scaled(-1.0, q));
    SumScaled(Nodes(w), -1.0, q);
    forall v | v in Nodes(w) ensures q(v) >= 0.0 {
      TermBelowSum(Nodes(w), excess, v);
    }
  }

  /** And there is only one such vector. */
  lemma StationaryIsUnique(w: Walk, p: Vector, q: Vector)
    requires Weighted(w) && w.alpha > 0.0 && Stationary(w, p) && Stationary(w, q)
    ensures forall v :: v in Nodes(w) ==> p(v) == q(v)
  {
    hide Sum, Nodes, Step, Stationary, Kept;
    StepContracts(w, p, q);
    StationaryStep(w, p, Step(w, q));
    StationaryStep(w, q, p);
    OnlySolution(w.alpha, Distance(w, p, q));
    forall v | v in Nodes(w) ensures p(v) == q(v) {
      TermBelowSum(Nodes(w), Dist(p, q), v);
    }
  }

  /** The error after n iterations: against every stationary vector when there is
      teleporting, and against every stationary distribution otherwise. */
  lemma ErrorBound(w: Walk, q: Vector, n: nat)
    requires Weighted(w) && Stationary(w, q) && (w.alpha > 0.0 || Distribution(w, q))
    ensures Distance(w, Score(w, n), q) <= 2.0 * Power(1.0 - w.alpha, n)
  {
    hide Sum, Nodes, Iterate, Distribution, Weighted, Stationary;
    if w.alpha > 0.0 {
      StationaryIsDistribution(w, q);
    }
    RestartIsDistribution(w);
    IteratesConverge(w, RestartVector(w), q, n);
    StationaryStays(w, q, n);
    SumSame(Nodes(w), Dist(Score(w, n), Iterate(w, q, n)), Dist(Score(w, n), q));
  }

  lemma {:induction false} IterateOnFrom(w: Walk, p: Vector, n: nat, k: nat)
    ensures Iterate(w, Iterate(w, p, k), n) == Iterate(w, p, n + k)
  {
    hide Step;
    if n > 0 {
      IterateOnFrom(w, p, n - 1, k);
      assert n + k - 1 == n - 1 + k;
    }
  }

  /** And against every later iterate: more iterations change little. */
  lemma LaterScoresAreNear(w: Walk, n: nat, k: nat)
    requires Weighted(w)
    ensures Distance(w, Score(w, n), Score(w, n + k)) <= 2.0 * Power(1.0 - w.alpha, n)
  {
    hide Distance, Iterate, Distribution, Weighted;
    RestartIsDistribution(w);
    ScoresAreDistributions(w, k);
    IteratesConverge(w, RestartVector(w), Score(w, k), n);
    IterateOnFrom(w, RestartVector(w), n, k);
  }

  // ---------- support ----------

  /** An edge of positive weight. */
  predicate Edge(w: Walk, u: string, v: string) {
    var outs := Outs(w, u);
    exists k :: 0 <= k < |outs| && outs[k].0 == v && outs[k].1 > 0.0
  }

  /** v is a seed, or at most n edges away from one. */
  ghost predicate Reached(w: Walk, v: string, n: nat)
    decreases n
  {
    v in w.seeds || (n > 0 && exists u :: u in w.adjacency && Edge(w, u, v) && Reached(w, u, n - 1))
  }

  lemma {:induction false} PositiveTotal(outs: Edges, v: string)
    requires forall k :: 0 <= k < |outs| ==> outs[k].1 >= 0.0
    ensures TotalTo(outs, v) > 0.0 <==> exists k :: 0 <= k < |outs| && outs[k].0 == v && outs[k].1 > 0.0
    ensures 0.0 <= TotalTo(outs, v) <= Total(outs)
  {
    if outs != [] {
      var n := |outs| - 1;
      var rest := outs[..n];
      PositiveTotal(rest, v);
      if TotalTo(rest, v) > 0.0 {
        var k :| 0 <= k < |rest| && rest[k].0 == v && rest[k].1 > 0.0;
        assert outs[k] == rest[k];
      }
      if k :| 0 <= k < |outs| && outs[k].0 == v && outs[k].1 > 0.0 {
        if k < n {
          assert rest[k] == outs[k];
        }
      }
    }
  }

  lemma RestartSupport(w: Walk, v: string)
    ensures Restart(w, v) >= 0.0
    ensures Restart(w, v) > 0.0 <==> v in w.seeds
  {
    hide TotalTo, Total;
    var outs := SeedEdges(w.seeds);
    PositiveTotal(outs, v);
    if v in w.seeds {
      var k :| 0 <= k < |w.seeds| && w.seeds[k] == v;
      assert outs[k].0 == v;
    }
  }

  lemma ShareSupport(w: Walk, u: string, v: string)
    requires Weighted(w)
    ensures Share(w, u, v) > 0.0 ==> v in w.seeds || (u in w.adjacency && Edge(w, u, v))
    ensures Edge(w, u, v) ==> Share(w, u, v) > 0.0
  {
    hide TotalTo, Total, Restart;
    RestartSupport(w, v);
    var outs := Outs(w, u);
    PositiveTotal(outs, v);
    if Total(outs) > 0.0 {
      QuotientSign(TotalTo(outs, v), Total(outs));
    }
  }

  lemma {:induction false} PositiveTerm(s: set<string>, f: Vector) returns (x: string)
    requires NonNegative(s, f) && Sum(s, f) > 0.0
    ensures x in s && f(x) > 0.0
  {
    if s == {} {
      SumOfNothing(f);
      assert false;
      x := "";
    } else {
      x :| x in s;
      SumPick(s, f, x);
      if f(x) <= 0.0 {
        x := PositiveTerm(s - {x}, f);
      }
    }
  }

  lemma TermBelowSum(s: set<string>, f: Vector, x: string)
    requires NonNegative(s, f) && x in s
    ensures f(x) <= Sum(s, f)
  {
    SumPick(s, f, x);
    SumNonNegative(s - {x}, f);
  }

  /** Where a step puts mass. */
  lemma StepSupport(w: Walk, p: Vector, v: string)
    requires Weighted(w) && NonNegative(Nodes(w), p) && Step(w, p)(v) > 0.0
    ensures v in w.seeds || exists u :: u in w.adjacency && Edge(w, u, v) && p(u) > 0.0
  {
    hide Sum, Nodes, Share, Restart, Edge, Moves;
    RestartSupport(w, v);
    if v !in w.seeds {
      var r := Restart(w, v);
      assert r == 0.0 && w.alpha * r == 0.0;
      var inflow := ColumnOf(Moves(w, p), v);
      MovesColumn(w, p, v);
      var u := PositiveTerm(Nodes(w), inflow);
      MovesSupport(w, p, u, v);
    }
  }

  lemma MovesSupport(w: Walk, p: Vector, u: string, v: string)
    requires Weighted(w) && p(u) >= 0.0
    ensures Moves(w, p)(u, v) > 0.0 ==> p(u) > 0.0 && (v in w.seeds || (u in w.adjacency && Edge(w, u, v)))
  {
    hide Share, Edge;
    ShareNonNegative(w, u, v);
    ProductSign(1.0 - w.alpha, p(u), Share(w, u, v));
    ShareSupport(w, u, v);
  }

  lemma MovesColumn(w: Walk, p: Vector, v: string)
    requires Weighted(w) && NonNegative(Nodes(w), p)
    ensures NonNegative(Nodes(w), ColumnOf(Moves(w, p), v))
  {
    hide Nodes, Moves;
    forall u | u in Nodes(w) ensures ColumnOf(Moves(w, p), v)(u) >= 0.0 {
      MovesNonNegative(w, p, u, v);
    }
  }

  lemma StepReaches(w: Walk, p: Vector, u: string, v: string)
    requires Weighted(w) && 0.0 < w.alpha < 1.0 && NonNegative(Nodes(w), p)
    requires v in w.seeds || (u in w.adjacency && Edge(w, u, v) && p(u) > 0.0)
    ensures Step(w, p)(v) > 0.0
  {
    hide Sum, Share, Restart, Edge, Nodes, Moves;
    var r := Restart(w, v);
    RestartSupport(w, v);
    var inflow := ColumnOf(Moves(w, p), v);
    MovesColumn(w, p, v);
    SumNonNegative(Nodes(w), inflow);
    PositiveProduct(w.alpha, r);
    if v !in w.seeds {
      SourceIsNode(w, u);
      MovesAlongEdge(w, p, u, v);
      TermBelowSum(Nodes(w), inflow, u);
    }
  }

  lemma PositiveProduct(a: real, b: real)
    requires a > 0.0 && b >= 0.0
    ensures a * b >= 0.0
    ensures b > 0.0 ==> a * b > 0.0
  {
  }

  lemma SourceIsNode(w: Walk, u: string)
    ensures u in w.adjacency ==> u in Nodes(w)
  {
  }

  lemma MovesAlongEdge(w: Walk, p: Vector, u: string, v: string)
    requires Weighted(w) && w.alpha < 1.0 && Edge(w, u, v) && p(u) > 0.0
    ensures Moves(w, p)(u, v) > 0.0
  {
    hide Share, Edge;
    ShareSupport(w, u, v);
    ProductSign(1.0 - w.alpha, p(u), Share(w, u, v));
  }

  /** A score is positive only within n edges of a seed; and, when teleporting
      is neither never nor always, on all of those nodes. */
  lemma {:induction false} ScoreSupport(w: Walk, v: string, n: nat)
    requires Weighted(w)
    ensures Score(w, n)(v) > 0.0 ==> Reached(w, v, n)
    ensures 0.0 < w.alpha < 1.0 ==> (Score(w, n)(v) > 0.0 <==> Reached(w, v, n))
    decreases n
  {
    hide Step, Edge, Restart, Nodes;
    RestartSupport(w, v);
    if n > 0 {
      var p := Score(w, n - 1);
      ScoresAreDistributions(w, n - 1);
      if Score(w, n)(v) > 0.0 {
        StepSupport(w, p, v);
        if v !in w.seeds {
          var u :| u in w.adjacency && Edge(w, u, v) && p(u) > 0.0;
          ScoreSupport(w, u, n - 1);
        }
      }
      if Reached(w, v, n) && 0.0 < w.alpha < 1.0 {
        if v in w.seeds {
          StepReaches(w, p, v, v);
        } else {
          var u :| u in w.adjacency && Edge(w, u, v) && Reached(w, u, n - 1);
          ScoreSupport(w, u, n - 1);
          StepReaches(w, p, u, v);
        }
      }
    }
  }

  // ---------- the algorithm ----------

  /** The part of a step that follows edges. */
  ghost function Followed(w: Walk, p: Vector): Matrix {
    (u, v) =>
      var outs := Outs(w, u);
      if Total(outs) <= 0.0 then 0.0 else (1.0 - w.alpha) * p(u) * (TotalTo(outs, v) / Total(outs))
  }

  /** What dangling nodes send back to the seeds. */
  ghost function Dangling(w: Walk, p: Vector): Vector {
    u => if Total(Outs(w, u)) <= 0.0 then (1.0 - w.alpha) * p(u) else 0.0
  }

  ghost function AsVector(p: map<string, real>): Vector {
    v => if v in p then p[v] else 0.0
  }

  /** Edges and dangling mass together are a step. */
  lemma StepInParts(w: Walk, p: Vector, v: string)
    ensures Step(w, p)(v) == w.alpha * Restart(w, v) + Sum(Nodes(w), ColumnOf(Followed(w, p), v))
                             + Sum(Nodes(w), Dangling(w, p)) * Restart(w, v)
  {
    hide Sum, Nodes, Total, TotalTo, Restart;
    var r := Restart(w, v);
    var followed, back := ColumnOf(Followed(w, p), v), Scaled(r, Dangling(w, p));
    forall u | u in Nodes(w) ensures ColumnOf(Moves(w, p), v)(u) == Plus(followed, back)(u) {
    }
    SumSame(Nodes(w), ColumnOf(Moves(w, p), v), Plus(followed, back));
    SumPlus(Nodes(w), followed, back);
    SumScaled(Nodes(w), r, Dangling(w, p));
  }

  lemma SumGrow(s: set<string>, f: Vector, x: string)
    requires x !in s
    ensures Sum(s + {x}, f) == Sum(s, f) + f(x)
  {
    SumPick(s + {x}, f, x);
    assert s + {x} - {x} == s;
  }

  function TargetsFrom(w: Walk, done: set<string>): set<string> {
    set u, k | u in done && u in w.adjacency && 0 <= k < |w.adjacency[u]| :: w.adjacency[u][k].0
  }

  method GatherNodes(w: Walk) returns (nodes: set<string>)
    ensures nodes == Nodes(w)
  {
    nodes := {};
    var todo := w.adjacency.Keys;
    ghost var done: set<string> := {};
    while todo != {}
      invariant todo + done == w.adjacency.Keys
      invariant nodes == done + TargetsFrom(w, done)
      decreases todo
    {
      var src :| src in todo;
      var outs := w.adjacency[src];
      ghost var before := nodes + {src};
      nodes := nodes + {src};
      for k := 0 to |outs|
        invariant nodes == before + Targets(outs[..k])
      {
        assert outs[..k + 1] == outs[..k] + [outs[k]];
        TargetsGrow(outs[..k], outs[k]);
        nodes := nodes + {outs[k].0};
      }
      assert outs[..|outs|] == outs;
      TargetsFromGrow(w, done, src);
      todo := todo - {src};
      done := done + {src};
    }
    for i := 0 to |w.seeds|
      invariant nodes == done + TargetsFrom(w, done) + Targets(SeedEdges(w.seeds)[..i])
    {
      var outs := SeedEdges(w.seeds);
      assert outs[..i + 1] == outs[..i] + [outs[i]];
      TargetsGrow(outs[..i], outs[i]);
      nodes := nodes + {w.seeds[i]};
    }
    NodesInParts(w);
  }

  lemma TargetsGrow(outs: Edges, e: (string, real))
    ensures Targets(outs + [e]) == Targets(outs) + {e.0}
  {
    var all := outs + [e];
    assert all[|outs|].0 == e.0;
    forall x | x in Targets(outs) ensures x in Targets(all) {
      var k :| 0 <= k < |outs| && outs[k].0 == x;
      assert all[k].0 == x;
    }
  }

  lemma TargetsFromGrow(w: Walk, done: set<string>, src: string)
    requires src in w.adjacency
    ensures TargetsFrom(w, done + {src}) == TargetsFrom(w, done) + Targets(w.adjacency[src])
  {
    var outs := w.adjacency[src];
    forall x | x in Targets(outs) ensures x in TargetsFrom(w, done + {src}) {
      var k :| 0 <= k < |outs| && outs[k].0 == x;
      assert src in done + {src} && w.adjacency[src][k].0 == x;
    }
    forall x | x in TargetsFrom(w, done + {src}) ensures x in TargetsFrom(w, done) + Targets(outs) {
      var u, k :| u in done + {src} && u in w.adjacency && 0 <= k < |w.adjacency[u]| && w.adjacency[u][k].0 == x;
      if u == src {
        assert outs[k].0 == x;
      }
    }
  }

  lemma NodesInParts(w: Walk)
    ensures Nodes(w) == w.adjacency.Keys + TargetsFrom(w, w.adjacency.Keys) + Targets(SeedEdges(w.seeds)[..|w.seeds|])
  {
    var outs := SeedEdges(w.seeds);
    assert outs[..|w.seeds|] == outs;
    SeedsAreNodes(w);
    forall i | 0 <= i < |w.seeds| ensures w.seeds[i] in Targets(outs) {
      assert outs[i].0 == w.seeds[i];
    }
  }

  lemma TotalToStep(outs: Edges, k: nat, v: string)
    requires k < |outs|
    ensures TotalTo(outs[..k + 1], v) == TotalTo(outs[..k], v) + (if outs[k].0 == v then outs[k].1 else 0.0)
  {
    assert outs[..k + 1][..k] == outs[..k];
  }

  /** after is before with c times the weight of the edges added at their
      targets. */
  ghost predicate Added(before: map<string, real>, after: map<string, real>, c: real, outs: Edges) {
    after.Keys == before.Keys && forall v :: v in before ==> after[v] == before[v] + c * TotalTo(outs, v)
  }

  lemma AddedNothing(before: map<string, real>, c: real)
    ensures Added(before, before, c, [])
  {
  }

  lemma AddedOneMore(before: map<string, real>, after: map<string, real>, c: real, outs: Edges, k: nat, amount: real)
    requires k < |outs| && outs[k].0 in before && Added(before, after, c, outs[..k])
    requires amount == c * outs[k].1
    ensures Added(before, after[outs[k].0 := after[outs[k].0] + amount], c, outs[..k + 1])
  {
    hide TotalTo;
    forall v | v in before
      ensures c * TotalTo(outs[..k + 1], v) == c * TotalTo(outs[..k], v) + (if outs[k].0 == v then amount else 0.0)
    {
      TotalToStep(outs, k, v);
      Spread(c, TotalTo(outs[..k], v), outs[k].1);
    }
  }

  /** Splits a node's share over its edges, in place. */
  method Follow(before: map<string, real>, outs: Edges, share: real, total: real) returns (next: map<string, real>)
    requires total > 0.0 && Targets(outs) <= before.Keys
    ensures Added(before, next, share / total, outs)
  {
    hide Added, TotalTo;
    next := before;
    AddedNothing(before, share / total);
    assert outs[..0] == [];
    for k := 0 to |outs|
      invariant Added(before, next, share / total, outs[..k])
    {
      var (dst, weight) := outs[k];
      assert dst in Targets(outs);
      QuotientMoves(share, weight, total);
      AddedKeys(before, next, share / total, outs[..k]);
      AddedOneMore(before, next, share / total, outs, k, share * (weight / total));
      next := next[dst := next[dst] + share * (weight / total)];
    }
    assert outs[..|outs|] == outs;
  }

  lemma AddedKeys(before: map<string, real>, after: map<string, real>, c: real, outs: Edges)
    ensures Added(before, after, c, outs) ==> after.Keys == before.Keys
  {
  }

  lemma QuotientMoves(a: real, b: real, c: real)
    requires c > 0.0
    ensures a * (b / c) == (a / c) * b
  {
  }

  /** Sends an amount back to the seeds, in place and in equal parts. */
  method SendBack(before: map<string, real>, seeds: seq<string>, amount: real) returns (next: map<string, real>)
    requires seeds != [] && forall i :: 0 <= i < |seeds| ==> seeds[i] in before
    ensures Added(before, next, amount, SeedEdges(seeds))
  {
    hide Added, TotalTo;
    next := before;
    var outs := SeedEdges(seeds);
    AddedNothing(before, amount);
    assert outs[..0] == [];
    for i := 0 to |seeds|
      invariant Added(before, next, amount, outs[..i])
    {
      QuotientMoves(amount, 1.0, |seeds| as real);
      AddedKeys(before, next, amount, outs[..i]);
      AddedOneMore(before, next, amount, outs, i, amount / |seeds| as real);
      next := next[seeds[i] := next[seeds[i]] + amount / |seeds| as real];
    }
    assert outs[..|outs|] == outs;
  }

  /** The state of an iteration once the nodes of done have been handled. */
  ghost predicate Handled(w: Walk, p: Vector, done: set<string>, next: map<string, real>, dangling: real) {
    && next.Keys == Nodes(w)
    && (forall v :: v in Nodes(w) ==>
          next[v] == w.alpha * Restart(w, v) + Sum(done, ColumnOf(Followed(w, p), v)))
    && dangling == Sum(done, Dangling(w, p))
  }

  /** The mass that leaves u. */
  function Leaving(w: Walk, mass: real): real {
    (1.0 - w.alpha) * mass
  }

  lemma HandledDangling(w: Walk, p: Vector, done: set<string>, next: map<string, real>, dangling: real, u: string)
    requires Handled(w, p, done, next, dangling) && u !in done && Total(Outs(w, u)) <= 0.0
    ensures Handled(w, p, done + {u}, next, dangling + Leaving(w, p(u)))
  {
    hide Sum, Nodes, Total, Restart;
    SumGrow(done, Dangling(w, p), u);
    forall v | v in Nodes(w)
      ensures Sum(done + {u}, ColumnOf(Followed(w, p), v)) == Sum(done, ColumnOf(Followed(w, p), v))
    {
      SumGrow(done, ColumnOf(Followed(w, p), v), u);
    }
  }

  lemma HandledFollowed(w: Walk, p: Vector, done: set<string>, next: map<string, real>, dangling: real,
                        u: string, after: map<string, real>, total: real)
    requires u !in done && total == Total(Outs(w, u)) > 0.0
    ensures Handled(w, p, done, next, dangling) && Added(next, after, Leaving(w, p(u)) / total, Outs(w, u)) ==>
      Handled(w, p, done + {u}, after, dangling)
  {
    hide Sum, Nodes, Total, TotalTo, Restart, Outs;
    var outs := Outs(w, u);
    if Handled(w, p, done, next, dangling) && Added(next, after, Leaving(w, p(u)) / total, outs) {
      SumGrow(done, Dangling(w, p), u);
      forall v | v in Nodes(w)
        ensures after[v] == w.alpha * Restart(w, v) + Sum(done + {u}, ColumnOf(Followed(w, p), v))
      {
        SumGrow(done, ColumnOf(Followed(w, p), v), u);
        QuotientMoves(Leaving(w, p(u)), TotalTo(outs, v), total);
      }
    }
  }

  ghost predicate Holds(w: Walk, p: map<string, real>, f: Vector) {
    p.Keys == Nodes(w) && forall v :: v in Nodes(w) ==> p[v] == f(v)
  }

  lemma HandledAll(w: Walk, p: Vector, next: map<string, real>, dangling: real, after: map<string, real>)
    requires Handled(w, p, Nodes(w), next, dangling) && Added(next, after, dangling, SeedEdges(w.seeds))
    ensures Holds(w, after, Step(w, p))
  {
    hide Sum, Nodes, TotalTo;
    forall v | v in Nodes(w) ensures after[v] == Step(w, p)(v) {
      StepInParts(w, p, v);
    }
  }

  lemma AddedZero(before: map<string, real>, outs: Edges)
    ensures Added(before, before, 0.0, outs)
  {
  }

  method SumWeights(outs: Edges) returns (total: real)
    ensures total == Total(outs)
  {
    total := 0.0;
    for k := 0 to |outs|
      invariant total == Total(outs[..k])
    {
      assert outs[..k + 1][..k] == outs[..k];
      total := total + outs[k].1;
    }
    assert outs[..|outs|] == outs;
  }

  lemma HandledNone(w: Walk, p: Vector, restart: map<string, real>, next: map<string, real>)
    requires Holds(w, restart, RestartVector(w))
    requires next.Keys == Nodes(w) && forall v :: v in next ==> next[v] == w.alpha * restart[v]
    ensures Handled(w, p, {}, next, 0.0)
  {
    hide Nodes, Restart;
    SumOfNothing(Dangling(w, p));
    forall v ensures Sum({}, ColumnOf(Followed(w, p), v)) == 0.0 {
      SumOfNothing(ColumnOf(Followed(w, p), v));
    }
  }

  lemma HandledKeys(w: Walk, p: Vector, done: set<string>, next: map<string, real>, dangling: real)
    ensures Handled(w, p, done, next, dangling) ==> next.Keys == Nodes(w)
  {
  }

  lemma SeedIsNode(w: Walk, i: nat)
    ensures i < |w.seeds| ==> w.seeds[i] in Nodes(w)
  {
  }

  /** One iteration, node by node in any order, computes a step. */
  method Iteration(w: Walk, nodes: set<string>, restart: map<string, real>, p: map<string, real>)
    returns (next: map<string, real>)
    requires w.seeds != [] && nodes == Nodes(w) && p.Keys == nodes
    requires Holds(w, restart, RestartVector(w))
    ensures Holds(w, next, Step(w, AsVector(p)))
  {
    hide Nodes, Handled, Added, Step, Total, TotalTo, Leaving;
    ghost var f := AsVector(p);
    next := map v | v in nodes :: w.alpha * restart[v];
    HandledNone(w, f, restart, next);
    var dangling := 0.0;
    var todo := nodes;
    assert nodes - todo == {};
    while todo != {}
      invariant todo <= nodes
      invariant Handled(w, f, nodes - todo, next, dangling)
      decreases todo
    {
      var u :| u in todo;
      var outs := Outs(w, u);
      var total := SumWeights(outs);
      assert nodes - (todo - {u}) == nodes - todo + {u};
      assert f(u) == p[u];
      HandledKeys(w, f, nodes - todo, next, dangling);
      if total <= 0.0 {
        HandledDangling(w, f, nodes - todo, next, dangling, u);
        dangling := dangling + Leaving(w, p[u]);
      } else {
        TargetsAreNodes(w, u);
        var after := Follow(next, outs, Leaving(w, p[u]), total);
        HandledFollowed(w, f, nodes - todo, next, dangling, u, after, total);
        next := after;
      }
      todo := todo - {u};
    }
    assert nodes - todo == nodes;
    HandledKeys(w, f, nodes, next, dangling);
    ghost var before := next;
    if dangling != 0.0 {
      forall i | 0 <= i < |w.seeds| ensures w.seeds[i] in next {
        SeedIsNode(w, i);
      }
      next := SendBack(next, w.seeds, dangling);
    } else {
      AddedZero(next, SeedEdges(w.seeds));
    }
    HandledAll(w, f, before, dangling, next);
  }

  lemma RestartFromZero(w: Walk, zero: map<string, real>, restart: map<string, real>)
    requires zero.Keys == Nodes(w) && (forall v :: v in zero ==> zero[v] == 0.0)
    requires Added(zero, restart, 1.0, SeedEdges(w.seeds))
    ensures Holds(w, restart, RestartVector(w))
  {
    hide Nodes, TotalTo;
  }

  lemma HoldsNext(w: Walk, p: map<string, real>, next: map<string, real>, f: Vector)
    requires Holds(w, p, f) && Holds(w, next, Step(w, AsVector(p)))
    ensures Holds(w, next, Step(w, f))
  {
    hide Nodes, Step;
    forall v | v in Nodes(w) ensures Step(w, AsVector(p))(v) == Step(w, f)(v) {
      StepReadsNodes(w, AsVector(p), f, v);
    }
  }

  /** Without seeds there is no result; otherwise the result has exactly the
      graph's nodes and holds the scores after the given iterations. */
  method PersonalizedPagerank(w: Walk, iters: nat) returns (p: map<string, real>)
    ensures w.seeds == [] ==> p == map[]
    ensures w.seeds != [] ==> Holds(w, p, Score(w, iters))
  {
    hide Nodes, Holds, Added, Step;
    var nodes := GatherNodes(w);
    if w.seeds == [] {
      return map[];
    }
    var zero := map v | v in nodes :: 0.0;
    forall i | 0 <= i < |w.seeds| ensures w.seeds[i] in zero {
      SeedIsNode(w, i);
    }
    var restart := SendBack(zero, w.seeds, 1.0);
    RestartFromZero(w, zero, restart);
    p := restart;
    for i := 0 to iters
      invariant Holds(w, p, Score(w, i))
    {
      HoldsKeys(w, p, Score(w, i));
      var next := Iteration(w, nodes, restart, p);
      HoldsNext(w, p, next, Score(w, i));
      p := next;
    }
  }

  lemma HoldsKeys(w: Walk, p: map<string, real>, f: Vector)
    ensures Holds(w, p, f) ==> p.Keys == Nodes(w)
  {
  }
}
