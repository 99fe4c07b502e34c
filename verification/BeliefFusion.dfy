/** Dempster-Shafer fusion over the frame {true, false}, in exact real
    arithmetic. */
module BeliefFusion {
  import opened Wrappers
  import opened SeqLemmas

  datatype Mass = Mass(t: real, f: real, u: real)

  datatype Rule = Single | Yager | Dempster

  datatype Fused = Fused(mass: Mass, conflict: real, rule: Rule)

  const MAX_RELIABILITY: real := 0.99
  const YAGER_THRESHOLD: real := 0.8
  const TOLERANCE: real := 0.000001

  function Total(m: Mass): real {
    m.t + m.f + m.u
  }

  predicate NonNegative(m: Mass) {
    m.t >= 0.0 && m.f >= 0.0 && m.u >= 0.0
  }

  /** What fuse() accepts: the total may be off by the tolerance. */
  predicate Accepted(m: Mass) {
    NonNegative(m) && -TOLERANCE <= Total(m) - 1.0 <= TOLERANCE
  }

  /** A basic probability assignment in the strict sense. */
  predicate Proper(m: Mass) {
    NonNegative(m) && Total(m) == 1.0
  }

  function Bpa(reliability: real, supports: bool): (m: Mass)
    ensures Proper(m) && m.u >= 0.01
    ensures 0.0 <= reliability <= MAX_RELIABILITY ==> (if supports then m.t else m.f) == reliability
    ensures (if supports then m.f else m.t) == 0.0
  {
    var r := if reliability < 0.0 then 0.0 else if reliability > MAX_RELIABILITY then MAX_RELIABILITY else reliability;
    if supports then Mass(r, 0.0, 1.0 - r) else Mass(0.0, r, 1.0 - r)
  }

  // ---------- the closed form ----------

  function Product(xs: seq<real>): real {
    if xs == [] then 1.0 else Product(xs[..|xs| - 1]) * xs[|xs| - 1]
  }

  function NotFalse(ms: seq<Mass>): (xs: seq<real>)
    ensures |xs| == |ms| && forall i :: 0 <= i < |ms| ==> xs[i] == ms[i].t + ms[i].u
  {
    seq(|ms|, i requires 0 <= i < |ms| => ms[i].t + ms[i].u)
  }

  function NotTrue(ms: seq<Mass>): (xs: seq<real>)
    ensures |xs| == |ms| && forall i :: 0 <= i < |ms| ==> xs[i] == ms[i].f + ms[i].u
  {
    seq(|ms|, i requires 0 <= i < |ms| => ms[i].f + ms[i].u)
  }

  function Unknowns(ms: seq<Mass>): (xs: seq<real>)
    ensures |xs| == |ms| && forall i :: 0 <= i < |ms| ==> xs[i] == ms[i].u
  {
    seq(|ms|, i requires 0 <= i < |ms| => ms[i].u)
  }

  // ---------- the reference: pairwise combination ----------

  /** The unnormalized conjunctive rule for two assignments; the mass of the
      empty intersection is dropped. */
  function Combine(a: Mass, b: Mass): Mass {
    Mass(a.t * b.t + a.t * b.u + a.u * b.t, a.f * b.f + a.f * b.u + a.u * b.f, a.u * b.u)
  }

  /** Combining one source after the other, from total ignorance. */
  function Fold(ms: seq<Mass>): Mass {
    if ms == [] then Mass(0.0, 0.0, 1.0) else Combine(Fold(ms[..|ms| - 1]), ms[|ms| - 1])
  }

  lemma ProductStep(ms: seq<Mass>)
    requires ms != []
    ensures var n, front := |ms| - 1, ms[..|ms| - 1];
      && Product(NotFalse(ms)) == Product(NotFalse(front)) * (ms[n].t + ms[n].u)
      && Product(NotTrue(ms)) == Product(NotTrue(front)) * (ms[n].f + ms[n].u)
      && Product(Unknowns(ms)) == Product(Unknowns(front)) * ms[n].u
  {
    var n, front := |ms| - 1, ms[..|ms| - 1];
    assert NotFalse(ms)[..n] == NotFalse(front) && NotTrue(ms)[..n] == NotTrue(front)
        && Unknowns(ms)[..n] == Unknowns(front);
  }

  lemma {:induction false} FoldIsClosedForm(ms: seq<Mass>)
    ensures Fold(ms).u == Product(Unknowns(ms))
    ensures Fold(ms).t == Product(NotFalse(ms)) - Product(Unknowns(ms))
    ensures Fold(ms).f == Product(NotTrue(ms)) - Product(Unknowns(ms))
  {
    hide Product, Combine;
    if ms == [] {
      EmptyProducts(ms);
    } else {
      FoldIsClosedForm(ms[..|ms| - 1]);
      ProductStep(ms);
      CombineSums(Fold(ms[..|ms| - 1]), ms[|ms| - 1]);
    }
  }

  lemma EmptyProducts(ms: seq<Mass>)
    requires ms == []
    ensures Product(NotFalse(ms)) == Product(NotTrue(ms)) == Product(Unknowns(ms)) == 1.0
  {
  }

  lemma CombineSums(a: Mass, b: Mass)
    ensures Combine(a, b).u == a.u * b.u
    ensures Combine(a, b).t + Combine(a, b).u == (a.t + a.u) * (b.t + b.u)
    ensures Combine(a, b).f + Combine(a, b).u == (a.f + a.u) * (b.f + b.u)
  {
  }

  lemma CombineNonNegative(a: Mass, b: Mass)
    ensures NonNegative(a) && NonNegative(b) ==> NonNegative(Combine(a, b))
  {
  }

  /** The mass lost to conflict is what the two products of totals miss. */
  lemma CombineTotal(a: Mass, b: Mass)
    requires NonNegative(a) && NonNegative(b)
    ensures Total(Combine(a, b)) == Total(a) * Total(b) - a.t * b.f - a.f * b.t <= Total(a) * Total(b)
  {
  }

  lemma CombineAtMostOne(a: Mass, b: Mass)
    requires NonNegative(a) && NonNegative(b) && Total(a) <= 1.0 && Total(b) <= 1.0
    ensures Total(Combine(a, b)) <= 1.0
  {
    hide Combine;
    CombineTotal(a, b);
    ProductAtMostOne(Total(a), Total(b));
  }

  lemma {:induction false} FoldBounds(ms: seq<Mass>)
    requires forall i :: 0 <= i < |ms| ==> NonNegative(ms[i])
    ensures NonNegative(Fold(ms))
    ensures (forall i :: 0 <= i < |ms| ==> Total(ms[i]) <= 1.0) ==> Total(Fold(ms)) <= 1.0
  {
    hide Combine;
    if ms != [] {
      var n, front := |ms| - 1, ms[..|ms| - 1];
      FoldBounds(front);
      CombineNonNegative(Fold(front), ms[n]);
      if forall i :: 0 <= i < |ms| ==> Total(ms[i]) <= 1.0 {
        CombineAtMostOne(Fold(front), ms[n]);
      }
    }
  }

  lemma ProductAtMostOne(x: real, y: real)
    requires 0.0 <= x <= 1.0 && 0.0 <= y <= 1.0
    ensures x * y <= x && x * y <= 1.0
  {
    assert x * (1.0 - y) >= 0.0;
    assert x * (1.0 - y) == x - x * y;
  }

  // ---------- fuse ----------

  /** The conflict of a batch, after the clamp. */
  function Conflict(ms: seq<Mass>): real {
    var missing := 1.0 - Total(Fold(ms));
    if missing < 0.0 then 0.0 else missing
  }

  function Scale(m: Mass, c: real): Mass {
    Mass(m.t * c, m.f * c, m.u * c)
  }

  /** The specification of fuse(), in terms of the sequential fold. */
  function FuseSpec(ms: seq<Mass>): Option<Fused> {
    if exists i :: 0 <= i < |ms| && !Accepted(ms[i]) then None
    else if ms == [] then Some(Fused(Mass(0.0, 0.0, 1.0), 0.0, Single))
    else if |ms| == 1 then Some(Fused(ms[0], 0.0, Single))
    else if Conflict(ms) > YAGER_THRESHOLD then
      Some(Fused(Fold(ms).(u := Fold(ms).u + Conflict(ms)), Conflict(ms), Yager))
    else Some(Fused(Scale(Fold(ms), 1.0 / (1.0 - Conflict(ms))), Conflict(ms), Dempster))
  }

  method Conjunctive(ms: seq<Mass>) returns (qTrue: real, qFalse: real, qUnknown: real, conflict: real)
    requires forall i :: 0 <= i < |ms| ==> NonNegative(ms[i])
    ensures Mass(qTrue, qFalse, qUnknown) == Fold(ms) && conflict == Conflict(ms)
    ensures qTrue == Product(NotFalse(ms)) - Product(Unknowns(ms))
    ensures qFalse == Product(NotTrue(ms)) - Product(Unknowns(ms))
  {
    hide Product, Combine, Fold;
    var pTrue, pFalse, pUnknown := 1.0, 1.0, 1.0;
    var i := 0;
    EmptyProducts(ms[..0]);
    while i < |ms|
      invariant 0 <= i <= |ms|
      invariant pTrue == Product(NotFalse(ms[..i])) && pFalse == Product(NotTrue(ms[..i]))
      invariant pUnknown == Product(Unknowns(ms[..i]))
    {
      var m := ms[i];
      assert ms[..i + 1][..i] == ms[..i];
      ProductStep(ms[..i + 1]);
      pTrue := pTrue * (m.t + m.u);
      pFalse := pFalse * (m.f + m.u);
      pUnknown := pUnknown * m.u;
      i := i + 1;
    }
    assert ms[..i] == ms;
    FoldIsClosedForm(ms);
    FoldBounds(ms);
    qTrue := if pTrue - pUnknown < 0.0 then 0.0 else pTrue - pUnknown;
    qFalse := if pFalse - pUnknown < 0.0 then 0.0 else pFalse - pUnknown;
    qUnknown := pUnknown;
    var missing := 1.0 - qTrue - qFalse - pUnknown;
    conflict := if missing < 0.0 then 0.0 else missing;
  }

  /** What fuse() answers, in the products of the closed form: nothing and a single
      mass as they are; otherwise the conflict decides whether it is kept as
      unknown or divided away. */
  ghost predicate FusedFrom(ms: seq<Mass>, r: Fused) {
    var nt, nf, u := Product(NotFalse(ms)), Product(NotTrue(ms)), Product(Unknowns(ms));
    var missing := 1.0 - nt - nf + u;
    && (ms == [] ==> r == Fused(Mass(0.0, 0.0, 1.0), 0.0, Single))
    && (|ms| == 1 ==> r == Fused(ms[0], 0.0, Single))
    && (|ms| >= 2 ==>
          && r.conflict == (if missing < 0.0 then 0.0 else missing)
          && r.rule == (if r.conflict > 0.8 then Yager else Dempster)
          && (r.rule.Yager? ==> r.mass == Mass(nt - u, nf - u, u + r.conflict))
          && (r.rule.Dempster? ==>
                r.mass.t * (1.0 - r.conflict) == nt - u && r.mass.f * (1.0 - r.conflict) == nf - u
                && r.mass.u * (1.0 - r.conflict) == u))
  }

  lemma FuseInProducts(ms: seq<Mass>)
    ensures FuseSpec(ms).Some? ==> FusedFrom(ms, FuseSpec(ms).value)
  {
    hide Product, Fold, NotFalse, NotTrue, Unknowns, Scale;
    FoldIsClosedForm(ms);
    if FuseSpec(ms).Some? && |ms| >= 2 && Conflict(ms) <= YAGER_THRESHOLD {
      ScaledBack(Fold(ms), 1.0 - Conflict(ms));
    }
  }

  lemma ScaledBack(m: Mass, y: real)
    requires y > 0.0
    ensures var r := Scale(m, 1.0 / y); r.t * y == m.t && r.f * y == m.f && r.u * y == m.u
  {
    QuotientBack(m.t, y);
    QuotientBack(m.f, y);
    QuotientBack(m.u, y);
  }

  lemma QuotientBack(x: real, y: real)
    requires y > 0.0
    ensures x * (1.0 / y) * y == x
  {
    assert (1.0 / y) * y == 1.0;
  }

  method Fuse(ms: seq<Mass>) returns (r: Option<Fused>)
    ensures r == FuseSpec(ms)
    ensures r.None? <==> exists i :: 0 <= i < |ms| && !Accepted(ms[i])
    ensures r.None? <==> exists i ::
      && 0 <= i < |ms|
      && (ms[i].t < 0.0 || ms[i].f < 0.0 || ms[i].u < 0.0
          || ms[i].t + ms[i].f + ms[i].u - 1.0 > 0.000001 || 1.0 - ms[i].t - ms[i].f - ms[i].u > 0.000001)
    ensures r.Some? ==> FusedFrom(ms, r.value)
  {
    hide Fold, Conflict, Scale, FusedFrom;
    FuseInProducts(ms);
    var i := 0;
    while i < |ms|
      invariant 0 <= i <= |ms| && forall j :: 0 <= j < i ==> Accepted(ms[j])
    {
      if !Accepted(ms[i]) {
        return None;
      }
      i := i + 1;
    }
    if ms == [] {
      return Some(Fused(Mass(0.0, 0.0, 1.0), 0.0, Single));
    }
    if |ms| == 1 {
      return Some(Fused(ms[0], 0.0, Single));
    }
    var qTrue, qFalse, qUnknown, conflict := Conjunctive(ms);
    if conflict > YAGER_THRESHOLD {
      return Some(Fused(Mass(qTrue, qFalse, qUnknown + conflict), conflict, Yager));
    }
    var norm := 1.0 - conflict;
    ScaleIsQuotient(Fold(ms), norm);
    return Some(Fused(Mass(qTrue / norm, qFalse / norm, qUnknown / norm), conflict, Dempster));
  }

  lemma ScaleIsQuotient(m: Mass, y: real)
    requires y > 0.0
    ensures Scale(m, 1.0 / y) == Mass(m.t / y, m.f / y, m.u / y)
  {
    Quotient(m.t, y);
    Quotient(m.f, y);
    Quotient(m.u, y);
  }

  lemma Quotient(x: real, y: real)
    requires y > 0.0
    ensures x / y == x * (1.0 / y)
  {
  }

  // ---------- what the result means ----------

  lemma ScaleSum(m: Mass, c: real)
    ensures Total(Scale(m, c)) == Total(m) * c
  {
  }

  /** Normalizing gives total one unless the clamp hid an overshoot. */
  lemma NormalizedTotal(m: Mass, conflict: real)
    requires NonNegative(m) && conflict == (if Total(m) <= 1.0 then 1.0 - Total(m) else 0.0) && conflict < 1.0
    ensures NonNegative(Scale(m, 1.0 / (1.0 - conflict)))
    ensures Total(Scale(m, 1.0 / (1.0 - conflict))) == 1.0 <==> Total(m) <= 1.0
  {
    hide Scale;
    var norm := 1.0 - conflict;
    var c := 1.0 / norm;
    Quotient(norm, norm);
    assert norm * c == 1.0 && c > 0.0;
    ScaleSum(m, c);
    ScaleNonNegative(m, c);
    if Total(m) > 1.0 {
      assert norm == 1.0 && c == 1.0;
    }
  }

  /** Every accepted batch yields a non-negative result. A single mass is
      returned as it is; otherwise the result is a probability assignment exactly
      when the batch does not overshoot: the last clamp is the only one that can
      ever bite. */
  lemma FusedIsProperIff(ms: seq<Mass>)
    requires FuseSpec(ms).Some?
    ensures NonNegative(FuseSpec(ms).value.mass)
    ensures Total(FuseSpec(ms).value.mass) == 1.0
       <==> if |ms| == 1 then Total(ms[0]) == 1.0
            else Product(NotFalse(ms)) + Product(NotTrue(ms)) - Product(Unknowns(ms)) <= 1.0
  {
    hide Fold, Scale, Product, NotFalse, NotTrue, Unknowns;
    assert forall i :: 0 <= i < |ms| ==> Accepted(ms[i]);
    if |ms| == 0 {
      EmptyProducts(ms);
    } else if |ms| >= 2 {
      FoldBounds(ms);
      FoldIsClosedForm(ms);
      if Conflict(ms) <= YAGER_THRESHOLD {
        NormalizedTotal(Fold(ms), Conflict(ms));
      }
    }
  }

  lemma ScaleNonNegative(m: Mass, c: real)
    ensures NonNegative(m) && c > 0.0 ==> NonNegative(Scale(m, c))
  {
  }

  /** Proper inputs never overshoot, so they always fuse to a proper result:
      belief is at most plausibility, and both lie in [0, 1]. */
  lemma ProperFusesProper(ms: seq<Mass>)
    requires forall i :: 0 <= i < |ms| ==> Proper(ms[i])
    ensures FuseSpec(ms).Some? && Proper(FuseSpec(ms).value.mass)
    ensures var m := FuseSpec(ms).value.mass; 0.0 <= m.t <= m.t + m.u <= 1.0
  {
    if |ms| >= 2 {
      FoldBounds(ms);
      FoldIsClosedForm(ms);
      FusedIsProperIff(ms);
    }
  }

  /** Accepted is not enough: within the tolerance, two sources that claim too
      much fuse to more than certainty. */
  lemma ToleranceOvershoots()
    ensures var m := Mass(0.0, 0.0, 1.000001);
      FuseSpec([m, m]).Some? && Total(FuseSpec([m, m]).value.mass) > 1.0
  {
    hide Fold, Combine;
    var m := Mass(0.0, 0.0, 1.000001);
    FoldOfTwo(m, m);
    Squared();
    ScaleByOne(Fold([m, m]));
  }

  lemma Squared()
    ensures Combine(Mass(0.0, 0.0, 1.000001), Mass(0.0, 0.0, 1.000001)) == Mass(0.0, 0.0, 1.000002000001)
  {
  }

  lemma ScaleByOne(m: Mass)
    ensures Scale(m, 1.0) == m && 1.0 / (1.0 - 0.0) == 1.0
  {
  }

  lemma FoldOfTwo(a: Mass, b: Mass)
    ensures Fold([a, b]) == Combine(a, b)
  {
    assert [a, b][..1] == [a] && [a][..0] == [];
    assert Combine(Mass(0.0, 0.0, 1.0), a) == a;
    assert Fold([a]) == a;
  }

  // ---------- order ----------

  lemma SwapFactors(x: real, y: real, z: real)
    ensures (x * y) * z == (x * z) * y
  {
  }

  lemma CombineSwap(a: Mass, b: Mass, c: Mass)
    ensures Combine(Combine(a, b), c) == Combine(Combine(a, c), b)
  {
    hide Combine;
    CombineSums(a, b);
    CombineSums(a, c);
    CombineSums(Combine(a, b), c);
    CombineSums(Combine(a, c), b);
    SwapFactors(a.u, b.u, c.u);
    SwapFactors(a.t + a.u, b.t + b.u, c.t + c.u);
    SwapFactors(a.f + a.u, b.f + b.u, c.f + c.u);
  }

  /** Any source can be combined last. */
  lemma {:induction false} FoldTakeOut(ms: seq<Mass>, k: nat)
    requires k < |ms|
    ensures Fold(ms) == Combine(Fold(ms[..k] + ms[k + 1..]), ms[k])
  {
    hide Combine;
    var n := |ms| - 1;
    var rest := ms[..k] + ms[k + 1..];
    if k == n {
      assert rest == ms[..n];
    } else {
      FoldTakeOut(ms[..n], k);
      assert ms[..n][..k] + ms[..n][k + 1..] == rest[..n - 1];
      assert rest[n - 1] == ms[n];
      CombineSwap(Fold(rest[..n - 1]), ms[k], ms[n]);
    }
  }

  lemma {:induction false} FoldPermutation(a: seq<Mass>, b: seq<Mass>)
    requires multiset(a) == multiset(b)
    ensures Fold(a) == Fold(b)
    decreases |a|
  {
    hide Combine;
    EmptyPermutation(a, b);
    if a != [] {
      var k := MatchLast(a, b);
      FoldTakeOut(b, k);
      FoldPermutation(a[..|a| - 1], b[..k] + b[k + 1..]);
    }
  }

  /** The order of the sources does not matter. */
  lemma FuseIsSymmetric(a: seq<Mass>, b: seq<Mass>)
    requires multiset(a) == multiset(b)
    ensures FuseSpec(a) == FuseSpec(b)
  {
    hide Fold, Scale;
    EmptyPermutation(a, b);
    FoldPermutation(a, b);
    SameSources(a, b);
  }

  lemma SameSources(a: seq<Mass>, b: seq<Mass>)
    requires multiset(a) == multiset(b) && |a| == |b|
    ensures |a| == 1 ==> a == b
    ensures (exists i :: 0 <= i < |a| && !Accepted(a[i])) <==> exists i :: 0 <= i < |b| && !Accepted(b[i])
  {
    hide Accepted;
    assert forall i :: 0 <= i < |a| ==> a[i] in multiset(b);
    assert forall i :: 0 <= i < |b| ==> b[i] in multiset(a);
  }

  // ---------- Dempster's rule, pairwise ----------

  /** Dempster's rule for two assignments that are not in total conflict. */
  function Normalized(m: Mass): Mass {
    if Total(m) == 0.0 then m else Scale(m, 1.0 / Total(m))
  }

  function DempsterFold(ms: seq<Mass>): Mass {
    if ms == [] then Mass(0.0, 0.0, 1.0) else Normalized(Combine(DempsterFold(ms[..|ms| - 1]), ms[|ms| - 1]))
  }

  lemma CombineScaled(a: Mass, b: Mass, c: real)
    ensures Combine(Scale(a, c), b) == Scale(Combine(a, b), c)
  {
  }

  lemma NormalizedScaled(m: Mass, c: real)
    requires c > 0.0 && Total(m) > 0.0
    ensures Normalized(Scale(m, c)) == Normalized(m)
  {
    ScaleSum(m, c);
    var s := Total(m);
    assert s * c > 0.0;
    assert c * (1.0 / (s * c)) == 1.0 / s by {
      assert (s * c) * (1.0 / (s * c)) == 1.0;
      assert s * (c * (1.0 / (s * c))) == 1.0;
      assert s * (1.0 / s) == 1.0;
    }
    ScaleTwice(m, c, 1.0 / (s * c));
  }

  lemma ScaleTwice(m: Mass, c: real, d: real)
    ensures Scale(Scale(m, c), d) == Scale(m, c * d)
  {
  }

  lemma NormalizedCertain()
    ensures Normalized(Mass(0.0, 0.0, 1.0)) == Mass(0.0, 0.0, 1.0)
  {
    hide Scale;
    var m := Mass(0.0, 0.0, 1.0);
    assert Total(m) == 1.0 && 1.0 / Total(m) == 1.0;
    ScaleByOne(m);
  }

  lemma NormalizedIs(m: Mass)
    ensures Total(m) != 0.0 ==> Normalized(m) == Scale(m, 1.0 / Total(m))
  {
  }

  lemma PositiveBefore(a: Mass, b: Mass)
    requires NonNegative(a) && NonNegative(b) && Total(b) == 1.0 && Total(Combine(a, b)) > 0.0
    ensures Total(a) > 0.0 && 1.0 / Total(a) > 0.0
  {
    hide Combine;
    CombineTotal(a, b);
  }

  /** Normalizing after every source or once at the end is the same. */
  lemma {:induction false} DempsterIsAssociative(ms: seq<Mass>)
    requires forall i :: 0 <= i < |ms| ==> Proper(ms[i])
    requires Total(Fold(ms)) > 0.0
    ensures DempsterFold(ms) == Normalized(Fold(ms))
  {
    hide Combine, Scale, Normalized, Total;
    if ms == [] {
      NormalizedCertain();
    } else {
      var n, front := |ms| - 1, ms[..|ms| - 1];
      var before := Fold(front);
      FoldBounds(front);
      ProperTotal(ms[n]);
      PositiveBefore(before, ms[n]);
      DempsterIsAssociative(front);
      NormalizedIs(before);
      CombineScaled(before, ms[n], 1.0 / Total(before));
      NormalizedScaled(Fold(ms), 1.0 / Total(before));
    }
  }

  lemma ProperTotal(m: Mass)
    ensures Proper(m) ==> NonNegative(m) && Total(m) == 1.0
  {
  }

  /** The Dempster branch is the pairwise-normalized fold. */
  lemma DempsterBranch(ms: seq<Mass>)
    requires |ms| >= 2 && (forall i :: 0 <= i < |ms| ==> Proper(ms[i]))
    requires FuseSpec(ms).Some? && FuseSpec(ms).value.rule == Dempster
    ensures FuseSpec(ms).value.mass == DempsterFold(ms)
  {
    FoldBounds(ms);
    assert 1.0 - Conflict(ms) == Total(Fold(ms));
    DempsterIsAssociative(ms);
  }

  // ---------- Yager's rule ----------

  /** The source combines first and parks the conflict once, so every bit of
      conflict stays visible as ignorance. */
  lemma YagerKeepsConflictUnknown(ms: seq<Mass>)
    requires |ms| >= 2 && (forall i :: 0 <= i < |ms| ==> Proper(ms[i]))
    requires FuseSpec(ms).Some? && FuseSpec(ms).value.rule == Yager
    ensures FuseSpec(ms).value.mass.t == Fold(ms).t && FuseSpec(ms).value.mass.f == Fold(ms).f
    ensures FuseSpec(ms).value.mass.u > YAGER_THRESHOLD
    ensures FuseSpec(ms).value.mass.t + FuseSpec(ms).value.mass.f < 1.0 - YAGER_THRESHOLD
  {
    FoldBounds(ms);
  }

  /** Yager's rule for two assignments: the mass that is lost becomes unknown. */
  function YagerPair(a: Mass, b: Mass): Mass {
    var c := Combine(a, b);
    c.(u := c.u + 1.0 - Total(c))
  }

  /** Parking the conflict after every source. */
  function YagerFold(ms: seq<Mass>): Mass {
    if ms == [] then Mass(0.0, 0.0, 1.0) else YagerPair(YagerFold(ms[..|ms| - 1]), ms[|ms| - 1])
  }

  lemma CombineGrows(a: Mass, b: Mass, c: Mass)
    requires NonNegative(a) && NonNegative(c) && a.t <= b.t && a.f <= b.f && a.u <= b.u
    ensures Combine(a, c).t <= Combine(b, c).t && Combine(a, c).f <= Combine(b, c).f
    ensures Combine(a, c).u <= Combine(b, c).u && NonNegative(Combine(a, c))
  {
    hide Combine, Part;
    CombineParts(a, c);
    CombineParts(b, c);
    PartGrows(a.t, b.t, a.u, b.u, c.t, c.u);
    PartGrows(a.f, b.f, a.u, b.u, c.f, c.u);
    MulGrows(a.u, b.u, c.u);
  }

  /** What one verdict gets when masses p and u meet x and y. */
  function Part(p: real, u: real, x: real, y: real): real {
    p * x + p * y + u * x
  }

  lemma CombineParts(a: Mass, c: Mass)
    ensures Combine(a, c) == Mass(Part(a.t, a.u, c.t, c.u), Part(a.f, a.u, c.f, c.u), a.u * c.u)
  {
  }

  lemma PartGrows(p: real, p': real, u: real, u': real, x: real, y: real)
    requires 0.0 <= p <= p' && 0.0 <= u <= u' && x >= 0.0 && y >= 0.0
    ensures 0.0 <= Part(p, u, x, y) <= Part(p', u', x, y)
  {
    MulGrows(p, p', x);
    MulGrows(p, p', y);
    MulGrows(u, u', x);
  }

  lemma MulGrows(x: real, y: real, z: real)
    ensures 0.0 <= x <= y && z >= 0.0 ==> 0.0 <= x * z <= y * z
  {
  }

  /** Re-exposing parked conflict to the next source only ever strengthens both
      beliefs, beyond what the sources jointly support. */
  lemma {:induction false} YagerFoldBelievesMore(ms: seq<Mass>)
    requires forall i :: 0 <= i < |ms| ==> Proper(ms[i])
    ensures Proper(YagerFold(ms)) && NonNegative(Fold(ms))
    ensures YagerFold(ms).t >= Fold(ms).t && YagerFold(ms).f >= Fold(ms).f && YagerFold(ms).u >= Fold(ms).u
  {
    hide Combine;
    if ms != [] {
      var last, front := ms[|ms| - 1], ms[..|ms| - 1];
      YagerFoldBelievesMore(front);
      CombineGrows(Fold(front), YagerFold(front), last);
      CombineGrows(YagerFold(front), YagerFold(front), last);
      CombineAtMostOne(YagerFold(front), last);
    }
  }

  /** Yager's rule is not the pairwise fold: two sources for a value and one
      against leave it almost unknown, and pairwise almost certain. */
  lemma YagerIsNotPairwise()
    ensures var ms := [Mass(0.99, 0.0, 0.01), Mass(0.0, 0.99, 0.01), Mass(0.99, 0.0, 0.01)];
      && FuseSpec(ms).Some? && FuseSpec(ms).value.rule == Yager
      && FuseSpec(ms).value.mass.t < 0.01 && FuseSpec(ms).value.mass.u > 0.98 && YagerFold(ms).t > 0.98
  {
    hide Combine, FuseSpec, Accepted;
    var a, b := Mass(0.99, 0.0, 0.01), Mass(0.0, 0.99, 0.01);
    var ms := [a, b, a];
    assert ms[..2] == [a, b] && [a, b][..1] == [a] && [a][..0] == [];
    WitnessFirst();
    WitnessSecond();
    WitnessThird();
    WitnessParked();
    assert Fold([]) == Mass(0.0, 0.0, 1.0) && YagerFold([]) == Mass(0.0, 0.0, 1.0);
    assert Fold([a]) == a && YagerFold([a]) == a;
    assert Fold([a, b]) == Mass(0.0099, 0.0099, 0.0001);
    assert Fold(ms) == Mass(0.009999, 0.000099, 0.000001);
    assert YagerFold([a, b]) == Mass(0.0099, 0.0099, 0.9802);
    assert YagerFold(ms).t == 0.980298;
    YagerBranch(ms);
  }

  /** The combinations of the example, in numbers. */
  lemma WitnessFirst()
    ensures Combine(Mass(0.0, 0.0, 1.0), Mass(0.99, 0.0, 0.01)) == Mass(0.99, 0.0, 0.01)
  {
  }

  lemma WitnessSecond()
    ensures Combine(Mass(0.99, 0.0, 0.01), Mass(0.0, 0.99, 0.01)) == Mass(0.0099, 0.0099, 0.0001)
  {
  }

  lemma WitnessThird()
    ensures Combine(Mass(0.0099, 0.0099, 0.0001), Mass(0.99, 0.0, 0.01)) == Mass(0.009999, 0.000099, 0.000001)
  {
  }

  lemma WitnessParked()
    ensures Combine(Mass(0.0099, 0.0099, 0.9802), Mass(0.99, 0.0, 0.01)) == Mass(0.980298, 0.000099, 0.009802)
  {
  }

  lemma YagerBranch(ms: seq<Mass>)
    requires |ms| >= 2 && (forall i :: 0 <= i < |ms| ==> Proper(ms[i])) && Total(Fold(ms)) < 1.0 - YAGER_THRESHOLD
    ensures FuseSpec(ms) == Some(Fused(Fold(ms).(u := Fold(ms).u + Conflict(ms)), Conflict(ms), Yager))
  {
    hide Fold;
  }

  // ---------- disputed facts ----------

  function Mirrored(ms: seq<Mass>): (r: seq<Mass>)
    ensures |r| == |ms| && forall i :: 0 <= i < |ms| ==> r[i] == Mass(ms[i].f, ms[i].t, ms[i].u)
  {
    seq(|ms|, i requires 0 <= i < |ms| => Mass(ms[i].f, ms[i].t, ms[i].u))
  }

  lemma MirroredFold(ms: seq<Mass>)
    ensures Fold(Mirrored(ms)) == Mass(Fold(ms).f, Fold(ms).t, Fold(ms).u)
  {
    hide Fold, Product, Mirrored, NotTrue, NotFalse, Unknowns;
    FoldIsClosedForm(ms);
    FoldIsClosedForm(Mirrored(ms));
    MirroredParts(ms);
  }

  lemma MirroredParts(ms: seq<Mass>)
    ensures NotFalse(Mirrored(ms)) == NotTrue(ms) && NotTrue(Mirrored(ms)) == NotFalse(ms)
    ensures Unknowns(Mirrored(ms)) == Unknowns(ms)
  {
  }

  /** Asking about the competing value swaps belief and disbelief. */
  lemma FuseMirrored(ms: seq<Mass>)
    requires FuseSpec(ms).Some?
    ensures FuseSpec(Mirrored(ms)).Some?
    ensures var a, b := FuseSpec(ms).value, FuseSpec(Mirrored(ms)).value;
      b.mass == Mass(a.mass.f, a.mass.t, a.mass.u) && b.conflict == a.conflict && b.rule == a.rule
  {
    hide Fold;
    assert forall i :: 0 <= i < |ms| ==> Accepted(ms[i]) && Accepted(Mirrored(ms)[i]);
    MirroredFold(ms);
  }

  /** One value of a disputed fact: the reliability of every source behind it
      and the number of distinct sources. */
  datatype Side = Side(value: string, reliabilities: seq<real>, sources: nat)

  datatype Interval = Interval(value: string, belief: real, plausibility: real, conflict: real, rule: Rule,
                               supporting: nat, contradicting: nat)

  function SourceMasses(rs: seq<real>, supports: bool): (ms: seq<Mass>)
    ensures |ms| == |rs| && forall i :: 0 <= i < |rs| ==> ms[i] == Bpa(rs[i], supports)
  {
    seq(|rs|, i requires 0 <= i < |rs| => Bpa(rs[i], supports))
  }

  /** All sources of the first n sides, as seen by side k. */
  function SideMasses(sides: seq<Side>, k: nat, n: nat): (ms: seq<Mass>)
    requires n <= |sides|
    ensures forall i :: 0 <= i < |ms| ==> Proper(ms[i])
  {
    if n == 0 then [] else SideMasses(sides, k, n - 1) + SourceMasses(sides[n - 1].reliabilities, n - 1 == k)
  }

  function SourcesAgainst(sides: seq<Side>, k: nat, n: nat): nat
    requires n <= |sides|
  {
    if n == 0 then 0 else SourcesAgainst(sides, k, n - 1) + if n - 1 == k then 0 else sides[n - 1].sources
  }

  function IntervalOf(side: Side, fused: Fused, against: nat): Interval {
    Interval(side.value, fused.mass.t, fused.mass.t + fused.mass.u, fused.conflict, fused.rule, side.sources, against)
  }

  lemma SideFuses(sides: seq<Side>, k: nat)
    ensures FuseSpec(SideMasses(sides, k, |sides|)).Some?
    ensures var m := FuseSpec(SideMasses(sides, k, |sides|)).value.mass;
      Proper(m) && 0.0 <= m.t <= m.t + m.u <= 1.0
  {
    ProperFusesProper(SideMasses(sides, k, |sides|));
  }

  /** The interval that side k ends up with. */
  function SideInterval(sides: seq<Side>, k: nat): (r: Interval)
    requires k < |sides|
    ensures 0.0 <= r.belief <= r.plausibility <= 1.0
  {
    SideFuses(sides, k);
    IntervalOf(sides[k], FuseSpec(SideMasses(sides, k, |sides|)).value, SourcesAgainst(sides, k, |sides|))
  }

  /** All sides weighed for or against side k. */
  method FuseSide(sides: seq<Side>, k: nat) returns (interval: Interval)
    requires k < |sides|
    ensures interval == SideInterval(sides, k)
  {
    hide FuseSpec, Bpa, Proper;
    var masses: seq<Mass> := [];
    var supporting, contradicting := 0, 0;
    var n := 0;
    while n < |sides|
      invariant 0 <= n <= |sides| && masses == SideMasses(sides, k, n)
      invariant contradicting == SourcesAgainst(sides, k, n)
      invariant supporting == if n > k then sides[k].sources else 0
    {
      var supports := n == k;
      masses := masses + SourceMasses(sides[n].reliabilities, supports);
      if supports {
        supporting := supporting + sides[n].sources;
      } else {
        contradicting := contradicting + sides[n].sources;
      }
      n := n + 1;
    }
    SideFuses(sides, k);
    var fused := Fuse(masses);
    var m := fused.value.mass;
    interval := Interval(sides[k].value, m.t, m.t + m.u, fused.value.conflict, fused.value.rule,
                         supporting, contradicting);
  }

  // ---------- what the interval of a side is ----------

  /** How likely each source is wrong. */
  function Doubts(rs: seq<real>): (xs: seq<real>)
    ensures |xs| == |rs|
    ensures forall i :: 0 <= i < |rs| ==>
      xs[i] == if rs[i] < 0.0 then 1.0 else if rs[i] > 0.99 then 0.01 else 1.0 - rs[i]
  {
    seq(|rs|, i requires 0 <= i < |rs| =>
      if rs[i] < 0.0 then 1.0 else if rs[i] > 0.99 then 0.01 else 1.0 - rs[i])
  }

  /** How likely all sources of a side are wrong. */
  function Doubt(side: Side): real {
    Product(Doubts(side.reliabilities))
  }

  /** How likely all sources of the other sides among the first n are wrong. */
  function OthersDoubt(sides: seq<Side>, k: nat, n: nat): real
    requires n <= |sides|
  {
    if n == 0 then 1.0 else OthersDoubt(sides, k, n - 1) * if n - 1 == k then 1.0 else Doubt(sides[n - 1])
  }

  function AllSources(sides: seq<Side>): nat {
    if sides == [] then 0 else AllSources(sides[..|sides| - 1]) + sides[|sides| - 1].sources
  }

  /** With p and q how likely all supporters and all opponents are wrong, the
      conflict is (1 - p)(1 - q). It stays unknown above the threshold and is
      divided away below. */
  ghost predicate Weighs(r: Interval, p: real, q: real) {
    && r.conflict == (1.0 - p) * (1.0 - q) && (r.rule.Yager? <==> r.conflict > 0.8)
    && (r.rule.Yager? ==> r.belief == q - p * q && r.plausibility == 1.0 - p + p * q)
    && (!r.rule.Yager? ==>
          r.belief * (1.0 - r.conflict) == q - p * q && r.plausibility * (1.0 - r.conflict) == q)
  }

  lemma {:induction false} ProductConcat(a: seq<real>, b: seq<real>)
    ensures Product(a + b) == Product(a) * Product(b)
  {
    if b == [] {
      assert a + b == a;
    } else {
      assert (a + b)[..|a + b| - 1] == a + b[..|b| - 1];
      ProductConcat(a, b[..|b| - 1]);
      MulAssoc(Product(a), Product(b[..|b| - 1]), b[|b| - 1]);
    }
  }

  lemma MulAssoc(x: real, y: real, z: real)
    ensures x * y * z == x * (y * z)
  {
  }

  lemma SourceProducts(rs: seq<real>, supports: bool)
    ensures var ms, d := SourceMasses(rs, supports), Product(Doubts(rs));
      && Product(NotTrue(ms)) == (if supports then d else 1.0)
      && Product(NotFalse(ms)) == (if supports then 1.0 else d)
      && Product(Unknowns(ms)) == d
  {
    hide Product;
    var ms := SourceMasses(rs, supports);
    assert Unknowns(ms) == Doubts(rs);
    if supports {
      assert NotTrue(ms) == Doubts(rs);
      ProductOfOnes(NotFalse(ms));
    } else {
      assert NotFalse(ms) == Doubts(rs);
      ProductOfOnes(NotTrue(ms));
    }
  }

  lemma ConcatProducts(a: seq<Mass>, b: seq<Mass>)
    ensures Product(NotTrue(a + b)) == Product(NotTrue(a)) * Product(NotTrue(b))
    ensures Product(NotFalse(a + b)) == Product(NotFalse(a)) * Product(NotFalse(b))
    ensures Product(Unknowns(a + b)) == Product(Unknowns(a)) * Product(Unknowns(b))
  {
    hide Product;
    assert NotTrue(a + b) == NotTrue(a) + NotTrue(b) && NotFalse(a + b) == NotFalse(a) + NotFalse(b)
        && Unknowns(a + b) == Unknowns(a) + Unknowns(b);
    ProductConcat(NotTrue(a), NotTrue(b));
    ProductConcat(NotFalse(a), NotFalse(b));
    ProductConcat(Unknowns(a), Unknowns(b));
  }

  lemma {:induction false} SideProducts(sides: seq<Side>, k: nat, n: nat)
    requires n <= |sides| && k < |sides|
    ensures var ms, p, q := SideMasses(sides, k, n), if k < n then Doubt(sides[k]) else 1.0, OthersDoubt(sides, k, n);
      Product(NotTrue(ms)) == p && Product(NotFalse(ms)) == q && Product(Unknowns(ms)) == p * q
  {
    hide Product, NotTrue, NotFalse, Unknowns, SourceMasses, Doubts;
    if n == 0 {
      EmptyProducts([]);
    } else {
      SideProducts(sides, k, n - 1);
      var side := sides[n - 1];
      var before, more := SideMasses(sides, k, n - 1), SourceMasses(side.reliabilities, n - 1 == k);
      SourceProducts(side.reliabilities, n - 1 == k);
      ConcatProducts(before, more);
      MoreDoubt(if k < n - 1 then Doubt(sides[k]) else 1.0, OthersDoubt(sides, k, n - 1), Doubt(side));
    }
  }

  lemma MoreDoubt(p: real, q: real, d: real)
    ensures p * q * d == p * (q * d) && 1.0 * q * d == d * q && 1.0 * d == d && q * 1.0 == q && p * 1.0 == p
  {
  }

  /** The same, for the masses and the conflict of a fusion. */
  ghost predicate Parts(r: Fused, nt: real, nf: real, u: real) {
    && r.conflict == 1.0 - nt - nf + u && (r.rule.Yager? <==> r.conflict > 0.8)
    && (r.rule.Yager? ==> r.mass.t == nt - u && r.mass.u == u + r.conflict)
    && (!r.rule.Yager? ==> r.mass.t * (1.0 - r.conflict) == nt - u && r.mass.u * (1.0 - r.conflict) == u)
  }

  lemma SingleParts(m: Mass)
    requires Proper(m)
    ensures Parts(Fused(m, 0.0, Single), m.t + m.u, m.f + m.u, m.u)
  {
  }

  /** For proper masses of any number, the products say everything. */
  lemma ProperFusedFrom(ms: seq<Mass>, r: Fused)
    requires (forall i :: 0 <= i < |ms| ==> Proper(ms[i])) && FuseSpec(ms) == Some(r)
    ensures Parts(r, Product(NotFalse(ms)), Product(NotTrue(ms)), Product(Unknowns(ms)))
  {
    hide Product, Fold, FuseSpec, Proper, NotFalse, NotTrue, Unknowns;
    FuseInProducts(ms);
    if ms == [] {
      EmptyProducts(ms);
    } else if |ms| == 1 {
      ProductOfOne(NotFalse(ms));
      ProductOfOne(NotTrue(ms));
      ProductOfOne(Unknowns(ms));
      SingleParts(ms[0]);
    } else {
      ManyParts(ms, r);
    }
  }

  lemma ManyParts(ms: seq<Mass>, r: Fused)
    requires |ms| >= 2 && (forall i :: 0 <= i < |ms| ==> Proper(ms[i])) && FusedFrom(ms, r)
    ensures Parts(r, Product(NotFalse(ms)), Product(NotTrue(ms)), Product(Unknowns(ms)))
  {
    hide Product, Fold, NotFalse, NotTrue, Unknowns;
    FoldIsClosedForm(ms);
    FoldBounds(ms);
  }

  /** Where the interval of a side lies. */
  lemma SideIntervalWeighs(sides: seq<Side>, k: nat)
    requires k < |sides|
    ensures Weighs(SideInterval(sides, k), Doubt(sides[k]), OthersDoubt(sides, k, |sides|))
  {
    hide FuseSpec, Product, NotTrue, NotFalse, Unknowns, Doubt, OthersDoubt;
    var ms := SideMasses(sides, k, |sides|);
    SideFuses(sides, k);
    ProperFusedFrom(ms, FuseSpec(ms).value);
    SideProducts(sides, k, |sides|);
    var p, q, m := Doubt(sides[k]), OthersDoubt(sides, k, |sides|), FuseSpec(ms).value.mass;
    var c := FuseSpec(ms).value.conflict;
    assert (1.0 - p) * (1.0 - q) == 1.0 - p - q + p * q;
    assert (m.t + m.u) * (1.0 - c) == m.t * (1.0 - c) + m.u * (1.0 - c);
  }

  lemma {:induction false} OthersSources(sides: seq<Side>, k: nat, n: nat)
    requires n <= |sides| && k < |sides|
    ensures SourcesAgainst(sides, k, n) + (if k < n then sides[k].sources else 0) == AllSources(sides[..n])
  {
    if n > 0 {
      OthersSources(sides, k, n - 1);
      assert sides[..n][..n - 1] == sides[..n - 1];
    }
  }

  /** Two sides: the beliefs in both values and the doubt left over. */
  lemma TwoIntervals(sides: seq<Side>)
    requires |sides| == 2
    ensures var a, b := SideInterval(sides, 0), SideInterval(sides, 1);
      a.plausibility == 1.0 - b.belief && b.plausibility == 1.0 - a.belief && a.conflict == b.conflict
  {
    hide FuseSpec, SideMasses;
    SideFuses(sides, 0);
    SideFuses(sides, 1);
    TwoSidesComplement(sides);
  }

  /** One side: fully plausible, and believed unless all its sources are wrong. */
  lemma OneInterval(sides: seq<Side>)
    requires |sides| == 1
    ensures var a := SideInterval(sides, 0);
      a.plausibility == 1.0 && a.belief == 1.0 - Doubt(sides[0]) && a.conflict == 0.0
  {
    hide SideInterval, Doubt;
    SideIntervalWeighs(sides, 0);
    assert OthersDoubt(sides, 0, 1) == OthersDoubt(sides, 0, 0) == 1.0;
  }

  lemma IntervalFields(sides: seq<Side>, k: nat)
    requires k < |sides|
    ensures var r, fused := SideInterval(sides, k), FuseSpec(SideMasses(sides, k, |sides|));
      && fused.Some? && r.plausibility - r.belief == fused.value.mass.u && r.rule == fused.value.rule
      && r.value == sides[k].value && r.supporting == sides[k].sources
      && r.supporting + r.contradicting == AllSources(sides)
  {
    hide FuseSpec, SideMasses;
    SideFuses(sides, k);
    OthersSources(sides, k, |sides|);
    assert sides[..|sides|] == sides;
  }

  /** One interval per side, before the final sort by belief. */
  method FuseDisputedFact(sides: seq<Side>) returns (intervals: seq<Interval>)
    ensures |intervals| == |sides|
    ensures forall k :: 0 <= k < |sides| ==> intervals[k] == SideInterval(sides, k)
    ensures forall k :: 0 <= k < |sides| ==>
      Weighs(intervals[k], Doubt(sides[k]), OthersDoubt(sides, k, |sides|))
    ensures forall k :: 0 <= k < |sides| ==>
      && intervals[k].value == sides[k].value && intervals[k].supporting == sides[k].sources
      && intervals[k].supporting + intervals[k].contradicting == AllSources(sides)
    ensures forall k :: 0 <= k < |sides| ==>
      && FuseSpec(SideMasses(sides, k, |sides|)).Some?
      && intervals[k].plausibility - intervals[k].belief == FuseSpec(SideMasses(sides, k, |sides|)).value.mass.u
    ensures |sides| == 1 ==>
      intervals[0].plausibility == 1.0 && intervals[0].belief == 1.0 - Doubt(sides[0])
    ensures |sides| == 2 ==>
      && intervals[0].plausibility == 1.0 - intervals[1].belief
      && intervals[1].plausibility == 1.0 - intervals[0].belief
  {
    hide SideInterval, Weighs, Doubt, OthersDoubt, AllSources, FuseSpec, SideMasses;
    forall k | 0 <= k < |sides|
      ensures Weighs(SideInterval(sides, k), Doubt(sides[k]), OthersDoubt(sides, k, |sides|))
      ensures var r, fused := SideInterval(sides, k), FuseSpec(SideMasses(sides, k, |sides|));
        && fused.Some? && r.plausibility - r.belief == fused.value.mass.u
        && r.value == sides[k].value && r.supporting == sides[k].sources
        && r.supporting + r.contradicting == AllSources(sides)
    {
      SideIntervalWeighs(sides, k);
      IntervalFields(sides, k);
    }
    if |sides| == 1 {
      OneInterval(sides);
    } else if |sides| == 2 {
      TwoIntervals(sides);
    }
    intervals := [];
    for k := 0 to |sides|
      invariant |intervals| == k
      invariant forall j :: 0 <= j < k ==> intervals[j] == SideInterval(sides, j)
    {
      var interval := FuseSide(sides, k);
      intervals := intervals + [interval];
    }
  }

  /** Between two values, the plausibility of one is what the belief in the
      other leaves over, so the two beliefs never add up to more than one. */
  lemma TwoSidesComplement(sides: seq<Side>)
    requires |sides| == 2
    ensures var a, b := FuseSpec(SideMasses(sides, 0, 2)), FuseSpec(SideMasses(sides, 1, 2));
      && a.Some? && b.Some?
      && a.value.mass.t + a.value.mass.u == 1.0 - b.value.mass.t
      && b.value.mass.t + b.value.mass.u == 1.0 - a.value.mass.t
      && a.value.mass.t + b.value.mass.t <= 1.0 && a.value.conflict == b.value.conflict
  {
    hide FuseSpec, SideMasses;
    SideFuses(sides, 0);
    TwoSidesMirror(sides);
    FuseMirrored(SideMasses(sides, 0, 2));
  }

  lemma SourcesMirror(rs: seq<real>, supports: bool)
    ensures SourceMasses(rs, !supports) == Mirrored(SourceMasses(rs, supports))
  {
  }

  lemma MirroredConcat(a: seq<Mass>, b: seq<Mass>)
    ensures Mirrored(a + b) == Mirrored(a) + Mirrored(b)
  {
  }

  lemma TwoSidesMirror(sides: seq<Side>)
    requires |sides| == 2
    ensures SideMasses(sides, 1, 2) == Mirrored(SideMasses(sides, 0, 2))
  {
    hide SourceMasses, Mirrored, SideMasses;
    var x, y := sides[0].reliabilities, sides[1].reliabilities;
    SourcesMirror(x, true);
    SourcesMirror(y, false);
    MirroredConcat(SourceMasses(x, true), SourceMasses(y, false));
    TwoSidesMasses(sides, 0);
    TwoSidesMasses(sides, 1);
  }

  lemma TwoSidesMasses(sides: seq<Side>, k: nat)
    requires |sides| == 2
    ensures SideMasses(sides, k, 2)
         == SourceMasses(sides[0].reliabilities, k == 0) + SourceMasses(sides[1].reliabilities, k == 1)
  {
    hide SourceMasses;
    FirstSideMasses(sides, k);
  }

  lemma FirstSideMasses(sides: seq<Side>, k: nat)
    requires |sides| == 2
    ensures SideMasses(sides, k, 1) == SourceMasses(sides[0].reliabilities, k == 0)
  {
    hide SourceMasses;
    assert [] + SourceMasses(sides[0].reliabilities, k == 0) == SourceMasses(sides[0].reliabilities, k == 0);
  }

  lemma {:induction false} ProductOfOnes(xs: seq<real>)
    requires forall i :: 0 <= i < |xs| ==> xs[i] == 1.0
    ensures Product(xs) == 1.0
  {
    if xs != [] {
      ProductOfOnes(xs[..|xs| - 1]);
    }
  }

  /** Agreement only: fully plausible, no conflict, and doubted exactly as much
      as all sources would have to be wrong together. */
  lemma AgreementBelief(rs: seq<real>)
    requires rs != []
    ensures var ms := SourceMasses(rs, true);
      && FuseSpec(ms).Some?
      && FuseSpec(ms).value.mass == Mass(1.0 - Product(Unknowns(ms)), 0.0, Product(Unknowns(ms)))
      && FuseSpec(ms).value.conflict == 0.0
  {
    hide Bpa, Fold, Product, Scale, FuseSpec;
    var ms := SourceMasses(rs, true);
    AgreementProducts(rs);
    if |rs| == 1 {
      ProductOfOne(Unknowns(ms));
      SingleSource(ms);
    } else {
      FoldIsClosedForm(ms);
      WithoutConflict(ms);
    }
  }

  lemma SingleSource(ms: seq<Mass>)
    requires |ms| == 1 && Proper(ms[0])
    ensures FuseSpec(ms) == Some(Fused(ms[0], 0.0, Single))
  {
    hide Fold;
  }

  lemma WithoutConflict(ms: seq<Mass>)
    requires |ms| >= 2 && (forall i :: 0 <= i < |ms| ==> Proper(ms[i]))
    ensures Total(Fold(ms)) == 1.0 ==> FuseSpec(ms) == Some(Fused(Fold(ms), 0.0, Dempster))
  {
    hide Fold, Scale;
    if Total(Fold(ms)) == 1.0 {
      ScaleByOne(Fold(ms));
      var c := Conflict(ms);
      assert c == 0.0;
      assert 1.0 / (1.0 - c) == 1.0;
    }
  }

  lemma ProductOfOne(xs: seq<real>)
    requires |xs| == 1
    ensures Product(xs) == xs[0]
  {
    assert xs[..0] == [];
  }

  lemma AgreementProducts(rs: seq<real>)
    ensures var ms := SourceMasses(rs, true);
      && Product(NotFalse(ms)) == 1.0 && Product(NotTrue(ms)) == Product(Unknowns(ms))
      && forall i :: 0 <= i < |ms| ==> Proper(ms[i]) && ms[i].t + ms[i].u == 1.0 && ms[i].f == 0.0
  {
    hide Product;
    var ms := SourceMasses(rs, true);
    ProductOfOnes(NotFalse(ms));
    assert NotTrue(ms) == Unknowns(ms);
  }
}
