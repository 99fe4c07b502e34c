/** Union-find with path halving over an array of parents, and the relation its
    roots represent. */
module DisjointSets {

  /** Every pointer stays in range and, by some rank, leads closer to a root. */
  ghost predicate Forest(ps: seq<nat>, rank: seq<nat>) {
    |rank| == |ps| && forall i :: 0 <= i < |ps| ==> ps[i] < |ps| && (ps[i] != i ==> rank[ps[i]] < rank[i])
  }

  ghost function Root(ps: seq<nat>, rank: seq<nat>, i: nat): (r: nat)
    requires Forest(ps, rank) && i < |ps|
    ensures r < |ps| && ps[r] == r
    decreases rank[i]
  {
    if ps[i] == i then i else Root(ps, rank, ps[i])
  }

  /** Pointing an element at its grandparent changes no root. */
  lemma {:induction false} HalvingKeepsRoot(ps: seq<nat>, rank: seq<nat>, i: nat, j: nat)
    requires Forest(ps, rank) && i < |ps| && j < |ps|
    ensures Forest(ps[i := ps[ps[i]]], rank)
    ensures Root(ps[i := ps[ps[i]]], rank, j) == Root(ps, rank, j)
    decreases rank[j]
  {
    if ps[j] != j {
      HalvingKeepsRoot(ps, rank, i, ps[j]);
      if j == i && ps[ps[j]] != ps[j] {
        HalvingKeepsRoot(ps, rank, i, ps[ps[j]]);
      }
    }
  }

  /** The ranks after hanging root b under root a. */
  ghost function Lifted(ps: seq<nat>, rank: seq<nat>, a: nat, b: nat): (r: seq<nat>)
    requires Forest(ps, rank) && a < |ps| && b < |ps|
    ensures |r| == |rank|
  {
    seq(|rank|, j requires 0 <= j < |rank| =>
      if Root(ps, rank, j) == b then rank[j] + rank[a] + 1 else rank[j])
  }

  lemma HangingIsForest(ps: seq<nat>, rank: seq<nat>, a: nat, b: nat)
    ensures Forest(ps, rank) && a < |ps| && b < |ps| && a != b && ps[a] == a && ps[b] == b ==>
      Forest(ps[b := a], Lifted(ps, rank, a, b))
  {
  }

  /** Hanging root b under root a merges exactly those two classes. */
  lemma {:induction false} HangingMergesRoots(ps: seq<nat>, rank: seq<nat>, a: nat, b: nat, j: nat)
    requires Forest(ps, rank) && a < |ps| && b < |ps| && a != b && ps[a] == a && ps[b] == b && j < |ps|
    ensures Forest(ps[b := a], Lifted(ps, rank, a, b))
    ensures Root(ps[b := a], Lifted(ps, rank, a, b), j)
         == if Root(ps, rank, j) == b then a else Root(ps, rank, j)
    decreases rank[j]
  {
    HangingIsForest(ps, rank, a, b);
    if ps[j] != j {
      HangingMergesRoots(ps, rank, a, b, ps[j]);
    }
  }

  /** The class of every element, as one map. */
  ghost function Roots(ps: seq<nat>, rank: seq<nat>): (rs: seq<nat>)
    requires Forest(ps, rank)
    ensures |rs| == |ps| && forall j :: 0 <= j < |ps| ==> rs[j] == Root(ps, rank, j)
  {
    seq(|ps|, j requires 0 <= j < |ps| => Root(ps, rank, j))
  }

  method Find(parents: array<nat>, ghost rank: seq<nat>, start: nat) returns (index: nat)
    requires Forest(parents[..], rank) && start < parents.Length
    modifies parents
    ensures Forest(parents[..], rank) && Roots(parents[..], rank) == Roots(old(parents[..]), rank)
    ensures index == Root(old(parents[..]), rank, start) && index < parents.Length && parents[index] == index
  {
    index := start;
    while parents[index] != index
      invariant index < parents.Length
      invariant Forest(parents[..], rank) && Roots(parents[..], rank) == Roots(old(parents[..]), rank)
      invariant Root(parents[..], rank, index) == Root(old(parents[..]), rank, start)
      decreases rank[index]
    {
      ghost var ps: seq<nat> := parents[..];
      forall j: nat | j < |ps| ensures Forest(ps[index := ps[ps[index]]], rank)
        && Root(ps[index := ps[ps[index]]], rank, j) == Root(ps, rank, j)
      {
        HalvingKeepsRoot(ps, rank, index, j);
      }
      parents[index] := parents[parents[index]];
      assert parents[..] == ps[index := ps[ps[index]]];
      index := parents[index];
    }
  }

  /** Merge two classes; the right root is hung under the left one. */
  method Union(parents: array<nat>, ghost rank: seq<nat>, left: nat, right: nat) returns (ghost rank': seq<nat>)
    requires Forest(parents[..], rank) && left < parents.Length && right < parents.Length
    modifies parents
    ensures Forest(parents[..], rank')
    ensures var was, now := Roots(old(parents[..]), rank), Roots(parents[..], rank');
      forall j :: 0 <= j < parents.Length ==> now[j] == if was[j] == was[right] then was[left] else was[j]
  {
    var a := Find(parents, rank, left);
    var b := Find(parents, rank, right);
    rank' := rank;
    if a != b {
      ghost var ps: seq<nat> := parents[..];
      rank' := Lifted(ps, rank, a, b);
      forall j: nat | j < |ps| ensures Forest(ps[b := a], rank')
        && Root(ps[b := a], rank', j) == if Root(ps, rank, j) == b then a else Root(ps, rank, j)
      {
        HangingMergesRoots(ps, rank, a, b, j);
      }
      parents[b] := a;
      assert parents[..] == ps[b := a];
    }
  }
}
