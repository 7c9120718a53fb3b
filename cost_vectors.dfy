/** Event-count vectors of a reconciliation: how many cospeciations (c),
    duplications (d), host switches (s) and losses (l) a solution uses, and
    how many distinct solutions share those counts.  The infeasible vector of
    the original (every count infinite, multiplicity 0) is an explicit
    variant here. */
module CostVectors {

  /** The (c, d, s, l) part of a cost vector, its "tuple" in the original. */
  datatype Cost = Finite(c: nat, d: nat, s: nat, l: nat) | Infinite

  /** A cost vector: its counts and its multiplicity. */
  datatype CostVector = CostVector(cost: Cost, count: nat)

  /** The vector that stands for "no valid assignment". */
  const Infeasible := CostVector(Infinite, 0)

  /** The tagging vectors that mark one event of each kind. */
  const Zero := CostVector(Finite(0, 0, 0, 0), 1)
  const CospeciationUnit := CostVector(Finite(1, 0, 0, 0), 1)
  const DuplicationUnit := CostVector(Finite(0, 1, 0, 0), 1)
  const SwitchUnit := CostVector(Finite(0, 0, 1, 0), 1)
  const LossUnit := CostVector(Finite(0, 0, 0, 1), 1)

  function AddCost(a: Cost, b: Cost): (r: Cost)
    ensures r.Infinite? <==> a.Infinite? || b.Infinite?
  {
    if a.Infinite? || b.Infinite? then Infinite
    else Finite(a.c + b.c, a.d + b.d, a.s + b.s, a.l + b.l)
  }

  /** `v + w`: counts add, multiplicities multiply (two independent
      sub-solutions combine in every way). */
  function Add(v: CostVector, w: CostVector): (r: CostVector)
    ensures r.count == v.count * w.count
    ensures r.cost.Infinite? <==> v.cost.Infinite? || w.cost.Infinite?
  {
    CostVector(AddCost(v.cost, w.cost), v.count * w.count)
  }

  lemma AddAssociative(u: CostVector, v: CostVector, w: CostVector)
    ensures Add(Add(u, v), w) == Add(u, Add(v, w))
  {
    assert (u.count * v.count) * w.count == u.count * (v.count * w.count);
  }

  /** `w < v` in the original: w is no worse in every count and better in at
      least one.  A finite vector dominates the infeasible one. */
  predicate Dominates(w: Cost, v: Cost)
  {
    match (w, v)
    case (Infinite, _) => false
    case (Finite(_, _, _, _), Infinite) => true
    case (Finite(wc, wd, ws, wl), Finite(vc, vd, vs, vl)) =>
      wc <= vc && wd <= vd && ws <= vs && wl <= vl && w != v
  }

  /** The lexicographic order on (c, d, s, l); the infeasible tuple is last. */
  predicate LexLess(a: Cost, b: Cost)
  {
    match (a, b)
    case (Infinite, _) => false
    case (Finite(_, _, _, _), Infinite) => true
    case (Finite(ac, ad, as_, al), Finite(bc, bd, bs, bl)) =>
      ac < bc || (ac == bc && (ad < bd || (ad == bd && (as_ < bs || (as_ == bs && al < bl)))))
  }

  lemma DominatesIrreflexive(a: Cost)
    ensures !Dominates(a, a)
  {
  }

  lemma DominatesTransitive(a: Cost, b: Cost, c: Cost)
    requires Dominates(a, b) && Dominates(b, c)
    ensures Dominates(a, c)
  {
  }

  /** Dominance refines the lexicographic order: a vector that dominates
      another comes strictly before it. */
  lemma DominatesImpliesLexLess(w: Cost, v: Cost)
    requires Dominates(w, v)
    ensures LexLess(w, v)
  {
  }

  lemma LexLessTrichotomy(a: Cost, b: Cost)
    ensures a == b || LexLess(a, b) || LexLess(b, a)
    ensures !(LexLess(a, b) && LexLess(b, a))
    ensures !LexLess(a, a)
  {
  }

  lemma LexLessTransitive(a: Cost, b: Cost, c: Cost)
    requires LexLess(a, b) && LexLess(b, c)
    ensures LexLess(a, c)
  {
  }

  /** `unit * list` in the original: the event vector added to every element. */
  function Shift(unit: CostVector, list: seq<CostVector>): (r: seq<CostVector>)
    ensures |r| == |list|
    ensures forall i :: 0 <= i < |list| ==> r[i] == Add(unit, list[i])
  {
    seq(|list|, i requires 0 <= i < |list| => Add(unit, list[i]))
  }

  /** The specification of `merge`: v + w for every v of the first list and
      w of the second, the first list's element varying slowest. */
  function Merged(list1: seq<CostVector>, list2: seq<CostVector>): seq<CostVector>
  {
    if list1 == [] then []
    else Merged(list1[..|list1| - 1], list2) + Shift(list1[|list1| - 1], list2)
  }

  /** `merge` returns |L1|·|L2| vectors in row-major order. */
  lemma {:induction false} MergedAt(list1: seq<CostVector>, list2: seq<CostVector>)
    ensures |Merged(list1, list2)| == |list1| * |list2|
    ensures forall i, j :: 0 <= i < |list1| && 0 <= j < |list2| ==>
      i * |list2| + j < |list1| * |list2| &&
      Merged(list1, list2)[i * |list2| + j] == Add(list1[i], list2[j])
  {
    if list1 != [] {
      var init := list1[..|list1| - 1];
      var n := |list1| - 1;
      MergedAt(init, list2);
      assert |Merged(list1, list2)| == n * |list2| + |list2|;
      forall i, j | 0 <= i < |list1| && 0 <= j < |list2|
        ensures i * |list2| + j < |list1| * |list2|
        ensures Merged(list1, list2)[i * |list2| + j] == Add(list1[i], list2[j])
      {
        MulBound(i, j, |list2|, |list1|);
        if i < n {
          assert list1[i] == init[i];
        } else {
          assert i * |list2| == n * |list2|;
        }
      }
    }
  }

  lemma MulBound(i: nat, j: nat, m: nat, n: nat)
    requires i < n && j < m
    ensures i * m + j < n * m
  {
    assert i * m <= (n - 1) * m;
  }

  /** Every merged vector is the sum of one vector of each list, and every
      such sum is there. */
  lemma {:induction false} MergedMembers(list1: seq<CostVector>, list2: seq<CostVector>, x: CostVector)
    ensures x in Merged(list1, list2) <==> exists v, w :: v in list1 && w in list2 && x == Add(v, w)
  {
    if list1 != [] {
      var init, last := list1[..|list1| - 1], list1[|list1| - 1];
      MergedMembers(init, list2, x);
      assert list1 == init + [last];
      if x in Shift(last, list2) {
        var j :| 0 <= j < |list2| && Shift(last, list2)[j] == x;
        assert list2[j] in list2;
      }
      if exists w :: w in list2 && x == Add(last, w) {
        var w :| w in list2 && x == Add(last, w);
        var j :| 0 <= j < |list2| && list2[j] == w;
        assert Shift(last, list2)[j] == x;
      }
    }
  }

  lemma MergedNonEmpty(list1: seq<CostVector>, list2: seq<CostVector>)
    requires |list1| > 0 && |list2| > 0
    ensures |Merged(list1, list2)| > 0
  {
    MergedAt(list1, list2);
    assert list1[0] in list1 && list2[0] in list2;
    MergedMembers(list1, list2, Add(list1[0], list2[0]));
  }
}
