/** The Pareto-frontier maintenance of the reconciliation engine
    (`paretoFilter` and its steps): cost-range pruning, coalescing of equal
    tuples with summed multiplicities, lexicographic sorting, the
    adjacent-pair prefilter and the full minimality check. */
module Frontier {
  import opened CostVectors

  /** The user's ranges for the switch and loss costs, relative to the unit
      cost of a duplication. */
  datatype CostRange = CostRange(switchLo: real, switchHi: real, lossLo: real, lossHi: real)
  {
    predicate Valid()
    {
      0.0 <= switchLo <= switchHi && 0.0 <= lossLo <= lossHi
    }
  }

  /** A weighted cost; the infeasible vector weighs more than anything. */
  datatype Weight = Bounded(value: real) | Unbounded

  predicate AtMost(a: Weight, b: Weight)
  {
    b.Unbounded? || (a.Bounded? && a.value <= b.value)
  }

  /** `cv.d + cv.s * switchHi + cv.l * lossHi`: the duplication count, not
      the cospeciation count, carries the fixed weight. */
  function HighCost(r: CostRange, v: CostVector): Weight
  {
    match v.cost
    case Infinite => Unbounded
    case Finite(_, d, s, l) => Bounded(d as real + s as real * r.switchHi + l as real * r.lossHi)
  }

  /** `cv.d + cv.l * lossLo + cv.s * switchLo`. */
  function LowCost(r: CostRange, v: CostVector): Weight
  {
    match v.cost
    case Infinite => Unbounded
    case Finite(_, d, s, l) => Bounded(d as real + l as real * r.lossLo + s as real * r.switchLo)
  }

  lemma MulMonotone(a: real, x: real, y: real)
    requires 0.0 <= a && x <= y
    ensures a * x <= a * y
  {
  }

  lemma LowAtMostHigh(r: CostRange, v: CostVector)
    requires r.Valid()
    ensures AtMost(LowCost(r, v), HighCost(r, v))
  {
    if v.cost.Finite? {
      MulMonotone(v.cost.s as real, r.switchLo, r.switchHi);
      MulMonotone(v.cost.l as real, r.lossLo, r.lossHi);
    }
  }

  function MinWeight(a: Weight, b: Weight): Weight
  {
    if AtMost(a, b) then a else b
  }

  /** `LUB` in `CVfilter`: the least high-end cost over the list. */
  function LeastHighCost(r: CostRange, list: seq<CostVector>): (lub: Weight)
    requires |list| > 0
    ensures forall v :: v in list ==> AtMost(lub, HighCost(r, v))
    ensures exists v :: v in list && HighCost(r, v) == lub
  {
    if |list| == 1 then HighCost(r, list[0])
    else
      var init := list[..|list| - 1];
      assert list == init + [list[|list| - 1]];
      MinWeight(LeastHighCost(r, init), HighCost(r, list[|list| - 1]))
  }

  /** The vectors of `list` whose low-end cost does not exceed `lub`, in order. */
  function Cheap(r: CostRange, list: seq<CostVector>, lub: Weight): seq<CostVector>
  {
    if list == [] then []
    else
      var v := list[|list| - 1];
      Cheap(r, list[..|list| - 1], lub) + (if AtMost(LowCost(r, v), lub) then [v] else [])
  }

  /** The specification of `CVfilter`. */
  function RangeFiltered(r: CostRange, list: seq<CostVector>): seq<CostVector>
  {
    if list == [] then [] else Cheap(r, list, LeastHighCost(r, list))
  }

  // ---------------------------------------------------------------------
  // Order-preserving sublists

  ghost predicate SublistAt(a: seq<CostVector>, b: seq<CostVector>, idx: seq<nat>)
  {
    && |idx| == |a|
    && (forall i :: 0 <= i < |idx| ==> idx[i] < |b| && a[i] == b[idx[i]])
    && (forall i, j :: 0 <= i < j < |idx| ==> idx[i] < idx[j])
  }

  /** `a` is `b` with some elements left out, the rest in their order. */
  ghost predicate IsSublist(a: seq<CostVector>, b: seq<CostVector>)
  {
    exists idx :: SublistAt(a, b, idx)
  }

  lemma SublistSkip(a: seq<CostVector>, b: seq<CostVector>, x: CostVector)
    requires IsSublist(a, b)
    ensures IsSublist(a, b + [x])
  {
    var idx :| SublistAt(a, b, idx);
    assert SublistAt(a, b + [x], idx);
  }

  lemma SublistTake(a: seq<CostVector>, b: seq<CostVector>, x: CostVector)
    requires IsSublist(a, b)
    ensures IsSublist(a + [x], b + [x])
  {
    var idx: seq<nat> :| SublistAt(a, b, idx);
    var idx': seq<nat> := idx + [|b|];
    assert SublistAt(a + [x], b + [x], idx');
  }

  lemma SublistTransitive(a: seq<CostVector>, b: seq<CostVector>, c: seq<CostVector>)
    requires IsSublist(a, b) && IsSublist(b, c)
    ensures IsSublist(a, c)
  {
    var ab :| SublistAt(a, b, ab);
    var bc :| SublistAt(b, c, bc);
    var ac: seq<nat> := seq(|ab|, i requires 0 <= i < |ab| => bc[ab[i]]);
    forall i | 0 <= i < |ac| ensures ac[i] < |c| && a[i] == c[ac[i]] {
      assert ab[i] < |b| == |bc|;
    }
    assert SublistAt(a, c, ac);
  }

  lemma SublistMembers(a: seq<CostVector>, b: seq<CostVector>)
    requires IsSublist(a, b)
    ensures forall v :: v in a ==> v in b
  {
    var idx :| SublistAt(a, b, idx);
    forall v | v in a ensures v in b {
      var i :| 0 <= i < |a| && a[i] == v;
      assert b[idx[i]] == v;
    }
  }

  lemma {:induction false} CheapSublist(r: CostRange, list: seq<CostVector>, lub: Weight)
    ensures IsSublist(Cheap(r, list, lub), list)
    ensures forall v :: v in Cheap(r, list, lub) <==> v in list && AtMost(LowCost(r, v), lub)
  {
    if list == [] {
      assert SublistAt([], [], []);
    } else {
      var init, v := list[..|list| - 1], list[|list| - 1];
      assert list == init + [v];
      CheapSublist(r, init, lub);
      if AtMost(LowCost(r, v), lub) {
        assert Cheap(r, list, lub) == Cheap(r, init, lub) + [v];
        SublistTake(Cheap(r, init, lub), init, v);
      } else {
        assert Cheap(r, list, lub) == Cheap(r, init, lub);
        SublistSkip(Cheap(r, init, lub), init, v);
      }
    }
  }

  /** `CVfilter` returns [] on [] and otherwise the vectors of its input whose
      low-end cost is at most the least high-end cost, in their order. */
  lemma RangeFilteredSpec(r: CostRange, list: seq<CostVector>)
    ensures list == [] ==> RangeFiltered(r, list) == []
    ensures IsSublist(RangeFiltered(r, list), list)
    ensures list != [] ==> forall v :: v in RangeFiltered(r, list) <==>
      v in list && AtMost(LowCost(r, v), LeastHighCost(r, list))
  {
    if list == [] {
      assert SublistAt([], [], []);
    } else {
      CheapSublist(r, list, LeastHighCost(r, list));
    }
  }

  /** With well-ordered, non-negative ranges, a vector of least high-end cost
      is always kept, so the filter never empties a non-empty list. */
  lemma RangeFilteredKeepsCheapest(r: CostRange, list: seq<CostVector>, v: CostVector)
    requires r.Valid() && v in list && HighCost(r, v) == LeastHighCost(r, list)
    ensures v in RangeFiltered(r, list)
    ensures |RangeFiltered(r, list)| > 0
  {
    RangeFilteredSpec(r, list);
    LowAtMostHigh(r, v);
  }

  lemma RangeFilteredNonEmpty(r: CostRange, list: seq<CostVector>)
    requires r.Valid() && |list| > 0
    ensures |RangeFiltered(r, list)| > 0
  {
    var lub := LeastHighCost(r, list);
    var v :| v in list && HighCost(r, v) == lub;
    RangeFilteredKeepsCheapest(r, list, v);
  }

  /** `inner` lies inside `outer`: both bounds of each range move outwards. */
  predicate Widens(outer: CostRange, inner: CostRange)
  {
    outer.switchLo <= inner.switchLo && inner.switchHi <= outer.switchHi &&
    outer.lossLo <= inner.lossLo && inner.lossHi <= outer.lossHi
  }

  /** Widening the switch or loss range never drops a vector that the
      narrower range kept. */
  lemma RangeFilteredMonotone(outer: CostRange, inner: CostRange, list: seq<CostVector>, v: CostVector)
    requires Widens(outer, inner) && v in RangeFiltered(inner, list)
    ensures v in RangeFiltered(outer, list)
  {
    RangeFilteredSpec(inner, list);
    assert list != [];
    RangeFilteredSpec(outer, list);
    var lubIn, lubOut := LeastHighCost(inner, list), LeastHighCost(outer, list);
    var w :| w in list && HighCost(outer, w) == lubOut;
    assert AtMost(lubIn, HighCost(inner, w));
    HighCostMonotone(outer, inner, w);
    LowCostMonotone(outer, inner, v);
    assert AtMost(LowCost(inner, v), lubIn);
  }

  lemma HighCostMonotone(outer: CostRange, inner: CostRange, v: CostVector)
    requires Widens(outer, inner)
    ensures AtMost(HighCost(inner, v), HighCost(outer, v))
  {
    if v.cost.Finite? {
      MulMonotone(v.cost.s as real, inner.switchHi, outer.switchHi);
      MulMonotone(v.cost.l as real, inner.lossHi, outer.lossHi);
    }
  }

  lemma LowCostMonotone(outer: CostRange, inner: CostRange, v: CostVector)
    requires Widens(outer, inner)
    ensures AtMost(LowCost(outer, v), LowCost(inner, v))
  {
    if v.cost.Finite? {
      MulMonotone(v.cost.s as real, outer.switchLo, inner.switchLo);
      MulMonotone(v.cost.l as real, outer.lossLo, inner.lossLo);
    }
  }

  /** The loop of `CVfilter`. */
  method CVfilter(r: CostRange, list: seq<CostVector>) returns (output: seq<CostVector>)
    ensures output == RangeFiltered(r, list)
  {
    if list == [] {
      return [];
    }
    var lub := LeastHighCost(r, list);
    output := [];
    for i := 0 to |list|
      invariant output == Cheap(r, list[..i], lub)
    {
      var cv := list[i];
      assert list[..i + 1][..i] == list[..i];
      if AtMost(LowCost(r, cv), lub) {
        output := output + [cv];
      }
    }
    assert list[..|list|] == list;
  }

  // ---------------------------------------------------------------------
  // Coalescing equal tuples

  /** The distinct tuples of `list`, in order of first occurrence. */
  function Tuples(list: seq<CostVector>): (ks: seq<Cost>)
    ensures forall i, j :: 0 <= i < j < |ks| ==> ks[i] != ks[j]
    ensures forall k :: k in ks <==> exists v :: v in list && v.cost == k
  {
    if list == [] then []
    else
      var init, v := list[..|list| - 1], list[|list| - 1];
      assert list == init + [v];
      var ks := Tuples(init);
      if v.cost in ks then ks else ks + [v.cost]
  }

  /** The summed multiplicity of the vectors of `list` whose tuple is `k`. */
  function CountFor(list: seq<CostVector>, k: Cost): nat
  {
    if list == [] then 0
    else
      var v := list[|list| - 1];
      CountFor(list[..|list| - 1], k) + (if v.cost == k then v.count else 0)
  }

  /** The specification of `coalesceDuplicates`: one vector per distinct
      tuple, carrying the summed multiplicity. */
  function Coalesced(list: seq<CostVector>): seq<CostVector>
  {
    var ks := Tuples(list);
    seq(|ks|, i requires 0 <= i < |ks| => CostVector(ks[i], CountFor(list, ks[i])))
  }

  function TotalCount(list: seq<CostVector>): nat
  {
    if list == [] then 0 else TotalCount(list[..|list| - 1]) + list[|list| - 1].count
  }

  /** `coalesceDuplicates` returns pairwise distinct tuples, exactly the
      tuples of its input, each with the sum of the input's multiplicities
      for that tuple. */
  lemma CoalescedSpec(list: seq<CostVector>)
    ensures forall i, j :: 0 <= i < j < |Coalesced(list)| ==> Coalesced(list)[i].cost != Coalesced(list)[j].cost
    ensures forall u :: u in Coalesced(list) ==> exists v :: v in list && v.cost == u.cost
    ensures forall v :: v in list ==> exists u :: u in Coalesced(list) && u.cost == v.cost
    ensures forall u :: u in Coalesced(list) ==> u.count == CountFor(list, u.cost)
  {
    var c, ks := Coalesced(list), Tuples(list);
    forall u | u in c ensures exists v :: v in list && v.cost == u.cost {
      var i :| 0 <= i < |c| && c[i] == u;
      assert ks[i] in ks;
    }
    forall v | v in list ensures exists u :: u in c && u.cost == v.cost {
      assert v.cost in ks;
      var i :| 0 <= i < |ks| && ks[i] == v.cost;
      assert c[i] in c;
    }
  }

  /** Sum of `CountFor(list, k)` over the tuples of `ks`. */
  function CountsOver(list: seq<CostVector>, ks: seq<Cost>): nat
  {
    if ks == [] then 0 else CountsOver(list, ks[..|ks| - 1]) + CountFor(list, ks[|ks| - 1])
  }

  lemma {:induction false} CountsOverSnoc(list: seq<CostVector>, v: CostVector, ks: seq<Cost>)
    ensures CountsOver(list + [v], ks) == CountsOver(list, ks) + CountsOccurrences(ks, v.cost) * v.count
  {
    if ks != [] {
      var init, k := ks[..|ks| - 1], ks[|ks| - 1];
      CountsOverSnoc(list, v, init);
      assert (list + [v])[..|list + [v]| - 1] == list;
      assert CountFor(list + [v], k) == CountFor(list, k) + (if v.cost == k then v.count else 0);
      var o := CountsOccurrences(init, v.cost);
      var delta := if k == v.cost then 1 else 0;
      assert (o + delta) * v.count == o * v.count + delta * v.count;
    }
  }

  function CountsOccurrences(ks: seq<Cost>, k: Cost): nat
  {
    if ks == [] then 0
    else CountsOccurrences(ks[..|ks| - 1], k) + (if ks[|ks| - 1] == k then 1 else 0)
  }

  lemma {:induction false} OccursOnce(ks: seq<Cost>, k: Cost)
    requires k in ks && forall i, j :: 0 <= i < j < |ks| ==> ks[i] != ks[j]
    ensures CountsOccurrences(ks, k) == 1
  {
    var init := ks[..|ks| - 1];
    assert ks == init + [ks[|ks| - 1]];
    if ks[|ks| - 1] == k {
      NotOccurring(init, k);
    } else {
      OccursOnce(init, k);
    }
  }

  lemma {:induction false} NotOccurring(ks: seq<Cost>, k: Cost)
    requires k !in ks
    ensures CountsOccurrences(ks, k) == 0
  {
    if ks != [] {
      assert ks == ks[..|ks| - 1] + [ks[|ks| - 1]];
      NotOccurring(ks[..|ks| - 1], k);
    }
  }

  lemma {:induction false} CountsOverAppend(list: seq<CostVector>, ks: seq<Cost>, k: Cost)
    ensures CountsOver(list, ks + [k]) == CountsOver(list, ks) + CountFor(list, k)
  {
    assert (ks + [k])[..|ks + [k]| - 1] == ks;
  }

  lemma {:induction false} CountForAbsent(list: seq<CostVector>, k: Cost)
    requires forall v :: v in list ==> v.cost != k
    ensures CountFor(list, k) == 0
  {
    if list != [] {
      var init := list[..|list| - 1];
      assert forall v :: v in init ==> v in list;
      CountForAbsent(init, k);
    }
  }

  /** Summing over the distinct tuples gives back the whole multiplicity. */
  lemma {:induction false} CountsOverTuples(list: seq<CostVector>)
    ensures CountsOver(list, Tuples(list)) == TotalCount(list)
  {
    if list != [] {
      var init, v := list[..|list| - 1], list[|list| - 1];
      assert list == init + [v];
      var ks := Tuples(init);
      CountsOverTuples(init);
      CountsOverSnoc(init, v, ks);
      if v.cost in ks {
        SeenTupleCounts(init, v);
      } else {
        NewTupleCounts(init, v);
      }
    }
  }

  /** The last vector repeats a tuple seen before: the tuple list is
      unchanged and the tuple is counted once. */
  lemma SeenTupleCounts(init: seq<CostVector>, v: CostVector)
    requires v.cost in Tuples(init)
    ensures Tuples(init + [v]) == Tuples(init)
    ensures CountsOccurrences(Tuples(init), v.cost) == 1
  {
    OccursOnce(Tuples(init), v.cost);
    assert (init + [v])[..|init + [v]| - 1] == init;
  }

  /** The last vector brings a new tuple: it is appended to the tuple list,
      and before it nothing carried that tuple. */
  lemma NewTupleCounts(init: seq<CostVector>, v: CostVector)
    requires v.cost !in Tuples(init)
    ensures Tuples(init + [v]) == Tuples(init) + [v.cost]
    ensures CountsOccurrences(Tuples(init), v.cost) == 0
    ensures CountsOver(init + [v], Tuples(init + [v])) == CountsOver(init + [v], Tuples(init)) + CountFor(init + [v], v.cost)
    ensures CountFor(init, v.cost) == 0
  {
    var list := init + [v];
    assert list[..|list| - 1] == init;
    NotOccurring(Tuples(init), v.cost);
    CountsOverAppend(list, Tuples(init), v.cost);
    forall u | u in init ensures u.cost != v.cost {
    }
    CountForAbsent(init, v.cost);
  }

  lemma {:induction false} TotalOfCoalesced(list: seq<CostVector>, ks: seq<Cost>)
    requires forall k :: k in ks ==> k in Tuples(list)
    ensures TotalCount(seq(|ks|, i requires 0 <= i < |ks| => CostVector(ks[i], CountFor(list, ks[i]))))
      == CountsOver(list, ks)
  {
    var c := seq(|ks|, i requires 0 <= i < |ks| => CostVector(ks[i], CountFor(list, ks[i])));
    if ks != [] {
      var init := ks[..|ks| - 1];
      TotalOfCoalesced(list, init);
      assert c[..|c| - 1] == seq(|init|, i requires 0 <= i < |init| => CostVector(init[i], CountFor(list, init[i])));
    }
  }

  /** Coalescing conserves the total multiplicity. */
  lemma CoalescedConservesCount(list: seq<CostVector>)
    ensures TotalCount(Coalesced(list)) == TotalCount(list)
  {
    TotalOfCoalesced(list, Tuples(list));
    CountsOverTuples(list);
  }

  /** The loops of `coalesceDuplicates`: a dictionary from tuple to summed
      multiplicity (with its keys kept in insertion order), then one vector
      per key. */
  method CoalesceDuplicates(list: seq<CostVector>) returns (output: seq<CostVector>)
    ensures output == Coalesced(list)
  {
    var counts: map<Cost, nat> := map[];
    var keys: seq<Cost> := [];
    for i := 0 to |list|
      invariant keys == Tuples(list[..i])
      invariant forall k :: k in counts <==> k in keys
      invariant forall k :: k in counts ==> counts[k] == CountFor(list[..i], k)
    {
      var cv := list[i];
      assert list[..i + 1][..i] == list[..i];
      var cvtup := cv.cost;
      if cvtup !in counts {
        counts := counts[cvtup := cv.count];
        keys := keys + [cvtup];
        CountForAbsent(list[..i], cvtup);
      } else {
        counts := counts[cvtup := counts[cvtup] + cv.count];
      }
    }
    assert list[..|list|] == list;
    output := VectorsOf(keys, counts);
    forall m | 0 <= m < |keys| ensures output[m] == Coalesced(list)[m] {
      assert counts[keys[m]] == CountFor(list, keys[m]);
    }
  }

  /** The second loop of `coalesceDuplicates`: one vector per key, in key
      order, carrying the key's summed multiplicity. */
  method VectorsOf(keys: seq<Cost>, counts: map<Cost, nat>) returns (output: seq<CostVector>)
    requires forall k :: k in keys ==> k in counts
    ensures |output| == |keys|
    ensures forall m :: 0 <= m < |keys| ==> output[m] == CostVector(keys[m], counts[keys[m]])
  {
    output := [];
    for j := 0 to |keys|
      invariant |output| == j
      invariant forall m :: 0 <= m < j ==> output[m] == CostVector(keys[m], counts[keys[m]])
    {
      var entry := keys[j];
      output := output + [TupleToCV(entry, counts[entry])];
    }
  }

  /** `tupleToCV`. */
  function TupleToCV(entry: Cost, count: nat): (v: CostVector)
    ensures v.cost == entry && v.count == count
  {
    CostVector(entry, count)
  }

  // ---------------------------------------------------------------------
  // Lexicographic sort

  predicate LexSorted(list: seq<CostVector>)
  {
    forall i, j :: 0 <= i < j < |list| ==> LexLess(list[i].cost, list[j].cost)
  }

  function Insert(v: CostVector, sorted: seq<CostVector>): (r: seq<CostVector>)
    ensures multiset(r) == multiset(sorted) + multiset{v}
  {
    if sorted == [] || LexLess(v.cost, sorted[0].cost) then [v] + sorted
    else
      assert sorted == [sorted[0]] + sorted[1..];
      [sorted[0]] + Insert(v, sorted[1..])
  }

  lemma {:induction false} InsertSorted(v: CostVector, sorted: seq<CostVector>)
    requires LexSorted(sorted) && forall u :: u in sorted ==> u.cost != v.cost
    ensures LexSorted(Insert(v, sorted))
  {
    if sorted == [] {
    } else if LexLess(v.cost, sorted[0].cost) {
      forall j | 0 < j < |sorted| ensures LexLess(v.cost, sorted[j].cost) {
        LexLessTransitive(v.cost, sorted[0].cost, sorted[j].cost);
      }
    } else {
      var rest := sorted[1..];
      assert sorted[0] in sorted;
      LexLessTrichotomy(v.cost, sorted[0].cost);
      InsertSorted(v, rest);
      var r := Insert(v, rest);
      assert forall x :: x in r ==> x in multiset(rest) + multiset{v};
      forall j | 0 <= j < |r| ensures LexLess(sorted[0].cost, r[j].cost) {
        assert r[j] in multiset(rest) + multiset{v};
        if r[j] != v {
          assert r[j] in rest;
        }
      }
    }
  }

  /** `sort(CostVector.lex)`. */
  function SortLex(list: seq<CostVector>): (r: seq<CostVector>)
    ensures multiset(r) == multiset(list)
  {
    if list == [] then []
    else
      assert list == [list[0]] + list[1..];
      Insert(list[0], SortLex(list[1..]))
  }

  /** With pairwise distinct tuples the sorted list is strictly increasing. */
  lemma {:induction false} SortLexSorted(list: seq<CostVector>)
    requires forall i, j :: 0 <= i < j < |list| ==> list[i].cost != list[j].cost
    ensures LexSorted(SortLex(list))
  {
    if list != [] {
      var rest := SortLex(list[1..]);
      SortLexSorted(list[1..]);
      forall u | u in rest ensures u.cost != list[0].cost {
        assert u in multiset(list[1..]);
        var j :| 0 <= j < |list[1..]| && list[1..][j] == u;
        assert list[j + 1] == u;
      }
      InsertSorted(list[0], rest);
    }
  }

  // ---------------------------------------------------------------------
  // The adjacent-pair prefilter and the minimality check

  /** `predecessor.d < current.d or predecessor.s < current.s`. */
  predicate Increases(predecessor: Cost, current: Cost)
  {
    match (predecessor, current)
    case (Infinite, _) => false
    case (Finite(_, _, _, _), Infinite) => true
    case (Finite(_, pd, ps, _), Finite(_, cd, cs, _)) => pd < cd || ps < cs
  }

  /** The first vector, then each vector whose d or s exceeds its
      predecessor's in the sorted list. */
  function Prefiltered(sorted: seq<CostVector>): (r: seq<CostVector>)
    requires |sorted| > 0
    ensures |r| > 0 && r[0] == sorted[0]
  {
    if |sorted| == 1 then [sorted[0]]
    else
      var n := |sorted|;
      Prefiltered(sorted[..n - 1]) + (if Increases(sorted[n - 2].cost, sorted[n - 1].cost) then [sorted[n - 1]] else [])
  }

  /** `minimal(v, CVlist)`: nothing in the list dominates v. */
  predicate Undominated(v: CostVector, pool: seq<CostVector>)
  {
    forall w :: w in pool ==> !Dominates(w.cost, v.cost)
  }

  /** The candidates that are minimal in `pool`, in order. */
  function KeepUndominated(candidates: seq<CostVector>, pool: seq<CostVector>): seq<CostVector>
  {
    if candidates == [] then []
    else
      var v := candidates[|candidates| - 1];
      KeepUndominated(candidates[..|candidates| - 1], pool) + (if Undominated(v, pool) then [v] else [])
  }

  lemma {:induction false} PrefilteredSublist(sorted: seq<CostVector>)
    requires |sorted| > 0
    ensures IsSublist(Prefiltered(sorted), sorted)
  {
    var n := |sorted|;
    if n == 1 {
      assert Prefiltered(sorted) == sorted;
      assert SublistAt(sorted, sorted, [0]);
    } else {
      var init := sorted[..n - 1];
      assert sorted == init + [sorted[n - 1]];
      PrefilteredSublist(init);
      if Increases(sorted[n - 2].cost, sorted[n - 1].cost) {
        assert Prefiltered(sorted) == Prefiltered(init) + [sorted[n - 1]];
        SublistTake(Prefiltered(init), init, sorted[n - 1]);
      } else {
        assert Prefiltered(sorted) == Prefiltered(init);
        SublistSkip(Prefiltered(init), init, sorted[n - 1]);
      }
    }
  }

  lemma {:induction false} KeepUndominatedSublist(candidates: seq<CostVector>, pool: seq<CostVector>)
    ensures IsSublist(KeepUndominated(candidates, pool), candidates)
    ensures forall v :: v in KeepUndominated(candidates, pool) <==> v in candidates && Undominated(v, pool)
  {
    if candidates == [] {
      assert SublistAt([], [], []);
    } else {
      var init, v := candidates[..|candidates| - 1], candidates[|candidates| - 1];
      assert candidates == init + [v];
      KeepUndominatedSublist(init, pool);
      if Undominated(v, pool) {
        assert KeepUndominated(candidates, pool) == KeepUndominated(init, pool) + [v];
        SublistTake(KeepUndominated(init, pool), init, v);
      } else {
        assert KeepUndominated(candidates, pool) == KeepUndominated(init, pool);
        SublistSkip(KeepUndominated(init, pool), init, v);
      }
    }
  }

  // ---------------------------------------------------------------------
  // paretoFilter

  /** The sorted, coalesced form of the range-filtered list. */
  function SortedUnique(r: CostRange, list: seq<CostVector>): (u: seq<CostVector>)
    requires r.Valid() && |list| > 0
    ensures |u| > 0
  {
    var filtered := RangeFiltered(r, list);
    RangeFilteredNonEmpty(r, list);
    CoalescedNonEmpty(filtered);
    var c := Coalesced(filtered);
    var u := SortLex(c);
    assert |u| == |multiset(u)| == |c|;
    u
  }

  lemma NotLexLessNotDominated(w: Cost, v: Cost)
    requires !LexLess(w, v)
    ensures !Dominates(w, v)
  {
    if Dominates(w, v) {
      DominatesImpliesLexLess(w, v);
    }
  }

  lemma CoalescedNonEmpty(list: seq<CostVector>)
    requires |list| > 0
    ensures |Coalesced(list)| > 0
  {
    assert list[0] in list;
    assert list[0].cost in Tuples(list);
  }

  /** The frontier `paretoFilter` is meant to compute: the sorted coalesced
      vectors that no vector of the range-filtered list dominates. It is
      `paretoFilter` without its adjacent-pair prefilter, which can drop
      such a vector (`ParetoAsWritten`, `PrefilterDropsMinimal`). */
  function Pareto(r: CostRange, list: seq<CostVector>): seq<CostVector>
    requires r.Valid() && |list| > 0
  {
    var unique := SortedUnique(r, list);
    if |unique| == 1 then unique
    else KeepUndominated(unique, RangeFiltered(r, list))
  }

  /** `paretoFilter` as written, with the adjacent-pair prefilter between
      sorting and the dominance test. */
  function ParetoAsWritten(r: CostRange, list: seq<CostVector>): seq<CostVector>
    requires r.Valid() && |list| > 0
  {
    var unique := SortedUnique(r, list);
    if |unique| == 1 then unique
    else KeepUndominated(Prefiltered(unique), RangeFiltered(r, list))
  }

  /** The sorted coalesced list: distinct tuples in increasing order, exactly
      the tuples of the range-filtered list, with summed multiplicities. */
  lemma SortedUniqueMembers(r: CostRange, list: seq<CostVector>)
    requires r.Valid() && |list| > 0
    ensures LexSorted(SortedUnique(r, list))
    ensures forall u :: u in SortedUnique(r, list) ==>
      (exists v :: v in RangeFiltered(r, list) && v.cost == u.cost) &&
      u.count == CountFor(RangeFiltered(r, list), u.cost)
    ensures forall v :: v in RangeFiltered(r, list) ==>
      exists u :: u in SortedUnique(r, list) && u.cost == v.cost
  {
    var filtered := RangeFiltered(r, list);
    var c := Coalesced(filtered);
    var u := SortedUnique(r, list);
    CoalescedSpec(filtered);
    SortLexSorted(c);
    assert forall x :: x in u <==> x in c by {
      forall x ensures x in u <==> x in c {
        assert x in u <==> x in multiset(u);
        assert x in c <==> x in multiset(c);
      }
    }
  }

  /** Every output vector of `paretoFilter` is minimal in the range-filtered
      list; its tuple occurs in that list, with the summed multiplicity. */
  lemma ParetoMembers(r: CostRange, list: seq<CostVector>)
    requires r.Valid() && |list| > 0
    ensures IsSublist(Pareto(r, list), SortedUnique(r, list))
    ensures forall v :: v in Pareto(r, list) ==> Undominated(v, RangeFiltered(r, list))
    ensures forall v :: v in Pareto(r, list) ==>
      (exists w :: w in RangeFiltered(r, list) && w.cost == v.cost) &&
      v.count == CountFor(RangeFiltered(r, list), v.cost)
  {
    var filtered := RangeFiltered(r, list);
    var u := SortedUnique(r, list);
    SortedUniqueMembers(r, list);
    if |u| == 1 {
      assert SublistAt(u, u, [0]);
      forall v, w | v in u && w in filtered ensures !Dominates(w.cost, v.cost) {
        var x :| x in u && x.cost == w.cost;
        DominatesIrreflexive(v.cost);
      }
    } else {
      KeepUndominatedSublist(u, filtered);
    }
    SublistMembers(Pareto(r, list), u);
  }

  /** The frontier is complete as well as sound: a sorted coalesced vector is
      on it exactly when no vector of the range-filtered list dominates it. */
  lemma ParetoExactly(r: CostRange, list: seq<CostVector>)
    requires r.Valid() && |list| > 0
    ensures forall v :: v in Pareto(r, list) <==>
      v in SortedUnique(r, list) && Undominated(v, RangeFiltered(r, list))
  {
    ParetoMembers(r, list);
    SublistMembers(Pareto(r, list), SortedUnique(r, list));
    if |SortedUnique(r, list)| > 1 {
      KeepUndominatedSublist(SortedUnique(r, list), RangeFiltered(r, list));
    }
  }

  /** What `paretoFilter` returns as written is part of the frontier, and
      only the prefilter can make it smaller. */
  lemma AsWrittenWithinPareto(r: CostRange, list: seq<CostVector>)
    requires r.Valid() && |list| > 0
    ensures forall v :: v in ParetoAsWritten(r, list) ==> v in Pareto(r, list)
  {
    var u := SortedUnique(r, list);
    ParetoExactly(r, list);
    if |u| > 1 {
      PrefilteredSublist(u);
      SublistMembers(Prefiltered(u), u);
      KeepUndominatedSublist(Prefiltered(u), RangeFiltered(r, list));
    } else {
      ParetoMembers(r, list);
    }
  }

  /** Every tuple `paretoFilter` returns is the tuple of one of its inputs. */
  lemma ParetoCostsFromInput(r: CostRange, list: seq<CostVector>)
    requires r.Valid() && |list| > 0
    ensures forall v :: v in Pareto(r, list) ==> exists w :: w in list && w.cost == v.cost
  {
    ParetoMembers(r, list);
    RangeFilteredSpec(r, list);
    SublistMembers(RangeFiltered(r, list), list);
  }

  /** The lexicographically least tuple of the range-filtered list is minimal
      in it. */
  lemma FirstUndominated(r: CostRange, list: seq<CostVector>)
    requires r.Valid() && |list| > 0
    ensures Undominated(SortedUnique(r, list)[0], RangeFiltered(r, list))
  {
    var filtered := RangeFiltered(r, list);
    var u := SortedUnique(r, list);
    var first := u[0];
    SortedUniqueMembers(r, list);
    forall w | w in filtered ensures !Dominates(w.cost, first.cost) {
      var x :| x in u && x.cost == w.cost;
      var j :| 0 <= j < |u| && u[j] == x;
      LexLessTrichotomy(w.cost, first.cost);
      assert j == 0 || LexLess(first.cost, w.cost);
      assert !LexLess(w.cost, first.cost);
      NotLexLessNotDominated(w.cost, first.cost);
    }
  }

  /** `paretoFilter` never returns an empty list: the lexicographically
      least tuple always survives. */
  lemma ParetoNonEmpty(r: CostRange, list: seq<CostVector>)
    requires r.Valid() && |list| > 0
    ensures |Pareto(r, list)| > 0
    ensures SortedUnique(r, list)[0] in Pareto(r, list)
  {
    var u := SortedUnique(r, list);
    if |u| > 1 {
      FirstUndominated(r, list);
      KeepUndominatedSublist(u, RangeFiltered(r, list));
    }
  }

  /** The frontier is dominance-free and strictly increasing in the
      lexicographic order. */
  lemma ParetoFrontierShape(r: CostRange, list: seq<CostVector>)
    requires r.Valid() && |list| > 0
    ensures forall v, w :: v in Pareto(r, list) && w in Pareto(r, list) ==> !Dominates(w.cost, v.cost)
    ensures LexSorted(Pareto(r, list))
  {
    var out := Pareto(r, list);
    var u := SortedUnique(r, list);
    ParetoMembers(r, list);
    SortedUniqueMembers(r, list);
    forall v, w | v in out && w in out ensures !Dominates(w.cost, v.cost) {
      var x :| x in RangeFiltered(r, list) && x.cost == w.cost;
    }
    var idx :| SublistAt(out, u, idx);
    forall i, j | 0 <= i < j < |out| ensures LexLess(out[i].cost, out[j].cost) {
      assert out[i] == u[idx[i]] && out[j] == u[idx[j]];
    }
  }

  /** A lone coalesced vector is returned as it is. */
  lemma ParetoLone(r: CostRange, list: seq<CostVector>)
    requires r.Valid() && |list| > 0
    requires |Coalesced(RangeFiltered(r, list))| == 1
    ensures Pareto(r, list) == Coalesced(RangeFiltered(r, list))
  {
    var c := Coalesced(RangeFiltered(r, list));
    var u := SortedUnique(r, list);
    assert |u| == |multiset(u)| == |multiset(c)| == 1;
    assert u[0] in multiset(c);
  }

  // ---------------------------------------------------------------------
  // Independence of input order

  /** The last vector of `a` sits somewhere in a permutation `b` of `a`; the
      rest of `a` is a permutation of `b` without it. */
  lemma PermutationSplit(a: seq<CostVector>, b: seq<CostVector>) returns (j: nat)
    requires |a| > 0 && multiset(a) == multiset(b)
    ensures j < |b| && b[j] == a[|a| - 1]
    ensures multiset(a[..|a| - 1]) == multiset(b[..j] + b[j + 1..])
  {
    var v := a[|a| - 1];
    assert a == a[..|a| - 1] + [v];
    assert v in multiset(b);
    j :| 0 <= j < |b| && b[j] == v;
    var a', b' := a[..|a| - 1], b[..j] + b[j + 1..];
    assert b == b[..j] + [v] + b[j + 1..];
    assert multiset(b) == multiset(b[..j]) + multiset{v} + multiset(b[j + 1..]);
    assert multiset(a') + multiset{v} == multiset(b') + multiset{v};
    assert multiset(a') == multiset(a') + multiset{v} - multiset{v};
    assert multiset(b') == multiset(b') + multiset{v} - multiset{v};
  }

  lemma {:induction false} CountForAppend(a: seq<CostVector>, b: seq<CostVector>, k: Cost)
    ensures CountFor(a + b, k) == CountFor(a, k) + CountFor(b, k)
    decreases |b|
  {
    if b == [] {
      assert a + b == a;
    } else {
      var init := b[..|b| - 1];
      assert (a + b)[..|a + b| - 1] == a + init;
      CountForAppend(a, init, k);
    }
  }

  /** The summed multiplicity of a tuple does not depend on the order of
      the list. */
  lemma {:induction false} CountForPermutation(a: seq<CostVector>, b: seq<CostVector>, k: Cost)
    requires multiset(a) == multiset(b)
    ensures CountFor(a, k) == CountFor(b, k)
    decreases |a|
  {
    if a == [] {
      assert |b| == |multiset(b)| == 0;
    } else {
      var j := PermutationSplit(a, b);
      var before, after := b[..j], b[j + 1..];
      CountForPermutation(a[..|a| - 1], before + after, k);
      CountForAppend(before, after, k);
      CountForAppend(before + [b[j]], after, k);
      CountForAppend(before, [b[j]], k);
      assert [b[j]][..0] == [];
      assert b == before + [b[j]] + after;
    }
  }

  lemma {:induction false} CheapAppend(r: CostRange, a: seq<CostVector>, b: seq<CostVector>, lub: Weight)
    ensures Cheap(r, a + b, lub) == Cheap(r, a, lub) + Cheap(r, b, lub)
    decreases |b|
  {
    if b == [] {
      assert a + b == a;
    } else {
      var init := b[..|b| - 1];
      assert (a + b)[..|a + b| - 1] == a + init;
      CheapAppend(r, a, init, lub);
    }
  }

  /** The filter keeps every copy of a cheap vector and no copy of another. */
  lemma {:induction false} CheapCount(r: CostRange, a: seq<CostVector>, lub: Weight, v: CostVector)
    ensures multiset(Cheap(r, a, lub))[v] == if AtMost(LowCost(r, v), lub) then multiset(a)[v] else 0
    decreases |a|
  {
    if a != [] {
      var init := a[..|a| - 1];
      assert a == init + [a[|a| - 1]];
      CheapCount(r, init, lub, v);
    }
  }

  /** Filtering a permutation keeps a permutation. */
  lemma CheapPermutation(r: CostRange, a: seq<CostVector>, b: seq<CostVector>, lub: Weight)
    requires multiset(a) == multiset(b)
    ensures multiset(Cheap(r, a, lub)) == multiset(Cheap(r, b, lub))
  {
    forall v ensures multiset(Cheap(r, a, lub))[v] == multiset(Cheap(r, b, lub))[v] {
      CheapCount(r, a, lub, v);
      CheapCount(r, b, lub, v);
    }
  }

  lemma LeastHighCostPermutation(r: CostRange, a: seq<CostVector>, b: seq<CostVector>)
    requires |a| > 0 && multiset(a) == multiset(b)
    ensures |b| > 0 && LeastHighCost(r, a) == LeastHighCost(r, b)
  {
    assert a[0] in multiset(b);
    var la, lb := LeastHighCost(r, a), LeastHighCost(r, b);
    var va :| va in a && HighCost(r, va) == la;
    var vb :| vb in b && HighCost(r, vb) == lb;
    assert va in multiset(b) && vb in multiset(a);
    assert AtMost(la, HighCost(r, vb)) && AtMost(lb, HighCost(r, va));
  }

  /** `CVfilter` of a permutation is a permutation of its result. */
  lemma RangeFilteredPermutation(r: CostRange, a: seq<CostVector>, b: seq<CostVector>)
    requires multiset(a) == multiset(b)
    ensures multiset(RangeFiltered(r, a)) == multiset(RangeFiltered(r, b))
  {
    if a == [] {
      assert |b| == |multiset(b)| == 0;
    } else {
      LeastHighCostPermutation(r, a, b);
      CheapPermutation(r, a, b, LeastHighCost(r, a));
    }
  }

  /** Two strictly increasing lists with the same members are equal. */
  lemma {:induction false} LexSortedUnique(a: seq<CostVector>, b: seq<CostVector>)
    requires LexSorted(a) && LexSorted(b) && forall v :: v in a <==> v in b
    ensures a == b
    decreases |a|
  {
    assert a != [] ==> a[0] in b;
    assert b != [] ==> b[0] in a;
    if a != [] {
      LexFirst(a, b[0]);
      LexFirst(b, a[0]);
      LexLessTrichotomy(a[0].cost, b[0].cost);
      forall v ensures v in a[1..] <==> v in b[1..] {
        if v in a[1..] {
          LexFirst(a[1..], v);
          LexFirst(a, v);
        }
        if v in b[1..] {
          LexFirst(b, v);
        }
        LexLessTrichotomy(a[0].cost, v.cost);
      }
      LexSortedUnique(a[1..], b[1..]);
      assert a == [a[0]] + a[1..] && b == [b[0]] + b[1..];
    }
  }

  /** The first vector of a strictly increasing list comes before every
      other member. */
  lemma LexFirst(a: seq<CostVector>, v: CostVector)
    requires LexSorted(a) && v in a
    ensures v == a[0] || LexLess(a[0].cost, v.cost)
    ensures v in a[1..] ==> LexLess(a[0].cost, v.cost)
  {
    var i :| 0 <= i < |a| && a[i] == v;
    if v in a[1..] {
      var k :| 0 <= k < |a| - 1 && a[1..][k] == v;
      assert a[k + 1] == v;
    }
  }

  /** A member of the sorted coalesced list of `a` is one of `b` as well. */
  lemma SortedUniqueMember(r: CostRange, a: seq<CostVector>, b: seq<CostVector>, u: CostVector)
    requires r.Valid() && |a| > 0 && |b| > 0
    requires multiset(RangeFiltered(r, a)) == multiset(RangeFiltered(r, b))
    requires u in SortedUnique(r, a)
    ensures u in SortedUnique(r, b)
  {
    var fa, fb := RangeFiltered(r, a), RangeFiltered(r, b);
    var v := SortedUniqueSource(r, a, u);
    assert v in multiset(fb);
    var u' := SortedUniqueTarget(r, b, v);
    CountForPermutation(fa, fb, u.cost);
  }

  lemma SortedUniqueSource(r: CostRange, list: seq<CostVector>, u: CostVector) returns (v: CostVector)
    requires r.Valid() && |list| > 0 && u in SortedUnique(r, list)
    ensures v in RangeFiltered(r, list) && v.cost == u.cost
    ensures u.count == CountFor(RangeFiltered(r, list), u.cost)
  {
    SortedUniqueMembers(r, list);
    v :| v in RangeFiltered(r, list) && v.cost == u.cost;
  }

  lemma SortedUniqueTarget(r: CostRange, list: seq<CostVector>, v: CostVector) returns (u: CostVector)
    requires r.Valid() && |list| > 0 && v in RangeFiltered(r, list)
    ensures u in SortedUnique(r, list) && u.cost == v.cost
    ensures u.count == CountFor(RangeFiltered(r, list), v.cost)
  {
    SortedUniqueMembers(r, list);
    u :| u in SortedUnique(r, list) && u.cost == v.cost;
  }

  /** Filtering, coalescing and sorting forget the order of the input. */
  lemma SortedUniquePermutation(r: CostRange, a: seq<CostVector>, b: seq<CostVector>)
    requires r.Valid() && |a| > 0 && multiset(a) == multiset(b)
    ensures |b| > 0 && SortedUnique(r, a) == SortedUnique(r, b)
  {
    LeastHighCostPermutation(r, a, b);
    RangeFilteredPermutation(r, a, b);
    forall u ensures u in SortedUnique(r, a) <==> u in SortedUnique(r, b) {
      if u in SortedUnique(r, a) {
        SortedUniqueMember(r, a, b, u);
      }
      if u in SortedUnique(r, b) {
        SortedUniqueMember(r, b, a, u);
      }
    }
    SortedUniqueMembers(r, a);
    SortedUniqueMembers(r, b);
    LexSortedUnique(SortedUnique(r, a), SortedUnique(r, b));
  }

  lemma {:induction false} KeepUndominatedSamePool(candidates: seq<CostVector>, p: seq<CostVector>, q: seq<CostVector>)
    requires forall w :: w in p <==> w in q
    ensures KeepUndominated(candidates, p) == KeepUndominated(candidates, q)
    decreases |candidates|
  {
    if candidates != [] {
      var v := candidates[|candidates| - 1];
      KeepUndominatedSamePool(candidates[..|candidates| - 1], p, q);
      assert Undominated(v, p) == Undominated(v, q);
    }
  }

  /** The frontier depends only on the multiset of its input vectors, not on
      their order. */
  lemma ParetoPermutation(r: CostRange, a: seq<CostVector>, b: seq<CostVector>)
    requires r.Valid() && |a| > 0 && multiset(a) == multiset(b)
    ensures |b| > 0 && Pareto(r, a) == Pareto(r, b)
  {
    SortedUniquePermutation(r, a, b);
    RangeFilteredPermutation(r, a, b);
    var fa, fb := RangeFiltered(r, a), RangeFiltered(r, b);
    forall w ensures w in fa <==> w in fb {
      assert w in fa <==> w in multiset(fa);
      assert w in fb <==> w in multiset(fb);
    }
    KeepUndominatedSamePool(SortedUnique(r, a), fa, fb);
  }

  // ---------------------------------------------------------------------
  // Idempotence

  /** A vector that dominates another costs no more at the high end. */
  lemma DominatesHighCost(r: CostRange, w: CostVector, v: CostVector)
    requires r.Valid() && Dominates(w.cost, v.cost)
    ensures AtMost(HighCost(r, w), HighCost(r, v))
  {
    if v.cost.Finite? {
      assert w.cost.d <= v.cost.d && w.cost.s <= v.cost.s && w.cost.l <= v.cost.l;
      ScaleMonotone(w.cost.s as real, v.cost.s as real, r.switchHi);
      ScaleMonotone(w.cost.l as real, v.cost.l as real, r.lossHi);
      SumMonotone(w.cost.d as real, w.cost.s as real * r.switchHi, w.cost.l as real * r.lossHi,
                  v.cost.d as real, v.cost.s as real * r.switchHi, v.cost.l as real * r.lossHi);
    }
  }

  lemma SumMonotone(a: real, b: real, c: real, x: real, y: real, z: real)
    requires a <= x && b <= y && c <= z
    ensures a + b + c <= x + y + z
  {
  }

  lemma ScaleMonotone(x: real, y: real, a: real)
    requires x <= y && 0.0 <= a
    ensures x * a <= y * a
  {
  }

  /** A bound every high cost respects and some vector attains is `LUB`. */
  lemma LeastHighCostIs(r: CostRange, list: seq<CostVector>, v: CostVector)
    requires v in list && forall w :: w in list ==> AtMost(HighCost(r, v), HighCost(r, w))
    ensures LeastHighCost(r, list) == HighCost(r, v)
  {
    var lub := LeastHighCost(r, list);
    var u :| u in list && HighCost(r, u) == lub;
  }

  /** Weighted costs depend on the tuple alone. */
  lemma SameCostSameWeights(r: CostRange, a: CostVector, b: CostVector)
    requires a.cost == b.cost
    ensures HighCost(r, a) == HighCost(r, b) && LowCost(r, a) == LowCost(r, b)
  {
  }

  lemma AtMostAntisymmetric(a: Weight, b: Weight)
    requires AtMost(a, b) && AtMost(b, a)
    ensures a == b
  {
  }

  lemma SortedUniqueSorted(r: CostRange, list: seq<CostVector>)
    requires r.Valid() && |list| > 0
    ensures LexSorted(SortedUnique(r, list))
  {
    SortedUniqueMembers(r, list);
  }

  /** In a strictly increasing list a smaller tuple sits at a smaller index. */
  lemma SortedBefore(u: seq<CostVector>, i: nat, j: nat)
    requires LexSorted(u) && i < |u| && j < |u| && LexLess(u[j].cost, u[i].cost)
    ensures j < i
  {
    LexLessTrichotomy(u[i].cost, u[j].cost);
  }

  /** A range-filtered vector that dominates a sorted coalesced vector of
      least high cost has the tuple of an earlier one of least high cost. */
  lemma DominatorEarlier(r: CostRange, list: seq<CostVector>, i: nat, w: CostVector) returns (j: nat)
    requires r.Valid() && |list| > 0 && i < |SortedUnique(r, list)|
    requires HighCost(r, SortedUnique(r, list)[i]) == LeastHighCost(r, list)
    requires w in RangeFiltered(r, list) && Dominates(w.cost, SortedUnique(r, list)[i].cost)
    ensures j < i && HighCost(r, SortedUnique(r, list)[j]) == LeastHighCost(r, list)
  {
    var u := SortedUnique(r, list);
    DominatesHighCost(r, w, u[i]);
    assert AtMost(HighCost(r, w), LeastHighCost(r, list));
    RangeFilteredSpec(r, list);
    assert w in list;
    assert AtMost(LeastHighCost(r, list), HighCost(r, w));
    AtMostAntisymmetric(HighCost(r, w), LeastHighCost(r, list));
    var x := SortedUniqueTarget(r, list, w);
    j :| 0 <= j < |u| && u[j] == x;
    SameCostSameWeights(r, u[j], w);
    SortedUniqueSorted(r, list);
    DominatesImpliesLexLess(w.cost, u[i].cost);
    SortedBefore(u, i, j);
  }

  /** Walking down the sorted coalesced list from a vector of least high cost
      reaches one that no range-filtered vector dominates: a dominator costs
      no more, so it has the least high cost too, and it sorts earlier. */
  lemma {:induction false} UndominatedCheapest(r: CostRange, list: seq<CostVector>, i: nat) returns (k: nat)
    requires r.Valid() && |list| > 0 && i < |SortedUnique(r, list)|
    requires HighCost(r, SortedUnique(r, list)[i]) == LeastHighCost(r, list)
    ensures k < |SortedUnique(r, list)| && HighCost(r, SortedUnique(r, list)[k]) == LeastHighCost(r, list)
    ensures Undominated(SortedUnique(r, list)[k], RangeFiltered(r, list))
    decreases i
  {
    if Undominated(SortedUnique(r, list)[i], RangeFiltered(r, list)) {
      k := i;
    } else {
      var w :| w in RangeFiltered(r, list) && Dominates(w.cost, SortedUnique(r, list)[i].cost);
      var j := DominatorEarlier(r, list, i, w);
      k := UndominatedCheapest(r, list, j);
    }
  }

  /** A vector of least high cost is on the frontier. */
  lemma CheapestOnFrontier(r: CostRange, list: seq<CostVector>) returns (v: CostVector)
    requires r.Valid() && |list| > 0
    ensures v in Pareto(r, list) && HighCost(r, v) == LeastHighCost(r, list)
  {
    var u := SortedUnique(r, list);
    var c :| c in list && HighCost(r, c) == LeastHighCost(r, list);
    RangeFilteredKeepsCheapest(r, list, c);
    var x := SortedUniqueTarget(r, list, c);
    var i :| 0 <= i < |u| && u[i] == x;
    SameCostSameWeights(r, x, c);
    var k := UndominatedCheapest(r, list, i);
    ParetoExactly(r, list);
    v := u[k];
  }

  /** Every vector of the frontier has the tuple of a kept input vector. */
  lemma ParetoSource(r: CostRange, list: seq<CostVector>, y: CostVector) returns (z: CostVector)
    requires r.Valid() && |list| > 0 && y in Pareto(r, list)
    ensures z in list && z.cost == y.cost && AtMost(LowCost(r, z), LeastHighCost(r, list))
  {
    ParetoMembers(r, list);
    z :| z in RangeFiltered(r, list) && z.cost == y.cost;
    RangeFilteredSpec(r, list);
  }

  /** The frontier has the same `LUB` as the list it came from. */
  lemma ParetoLeastHighCost(r: CostRange, list: seq<CostVector>)
    requires r.Valid() && |list| > 0
    ensures |Pareto(r, list)| > 0 && LeastHighCost(r, Pareto(r, list)) == LeastHighCost(r, list)
  {
    var out := Pareto(r, list);
    var v := CheapestOnFrontier(r, list);
    forall y | y in out ensures AtMost(HighCost(r, v), HighCost(r, y)) {
      var z := ParetoSource(r, list, y);
      SameCostSameWeights(r, y, z);
    }
    LeastHighCostIs(r, out, v);
  }

  /** The filter keeps a list whose low costs are all within the bound. */
  lemma {:induction false} CheapAll(r: CostRange, list: seq<CostVector>, lub: Weight)
    requires forall v :: v in list ==> AtMost(LowCost(r, v), lub)
    ensures Cheap(r, list, lub) == list
  {
    if list != [] {
      var init := list[..|list| - 1];
      assert list == init + [list[|list| - 1]];
      CheapAll(r, init, lub);
    }
  }

  /** In a list of distinct tuples, the summed count of a member's tuple is
      its own count. */
  lemma {:induction false} CountForSorted(list: seq<CostVector>, v: CostVector)
    requires LexSorted(list) && v in list
    ensures CountFor(list, v.cost) == v.count
  {
    var init, last := list[..|list| - 1], list[|list| - 1];
    assert list == init + [last];
    if v == last {
      forall w | w in init ensures w.cost != v.cost {
        var j :| 0 <= j < |init| && init[j] == w;
        assert LexLess(list[j].cost, list[|list| - 1].cost);
        LexLessTrichotomy(w.cost, v.cost);
      }
      CountForAbsent(init, v.cost);
    } else {
      var j :| 0 <= j < |init| && init[j] == v;
      assert LexLess(list[j].cost, list[|list| - 1].cost);
      LexLessTrichotomy(v.cost, last.cost);
      CountForSorted(init, v);
    }
  }

  /** A dominance-free list keeps all its vectors under the dominance test. */
  lemma {:induction false} KeepUndominatedAll(candidates: seq<CostVector>, pool: seq<CostVector>)
    requires forall v :: v in candidates ==> Undominated(v, pool)
    ensures KeepUndominated(candidates, pool) == candidates
  {
    if candidates != [] {
      var init := candidates[..|candidates| - 1];
      assert candidates == init + [candidates[|candidates| - 1]];
      KeepUndominatedAll(init, pool);
    }
  }

  /** Filtering a frontier again changes nothing: it keeps its `LUB`, so the
      range filter keeps every vector; its tuples are distinct and sorted, so
      coalescing and sorting give it back; and none of its vectors dominates
      another. */
  lemma ParetoIdempotent(r: CostRange, list: seq<CostVector>)
    requires r.Valid() && |list| > 0
    ensures |Pareto(r, list)| > 0 && Pareto(r, Pareto(r, list)) == Pareto(r, list)
  {
    var out := Pareto(r, list);
    ParetoLeastHighCost(r, list);
    forall v | v in out ensures AtMost(LowCost(r, v), LeastHighCost(r, out)) {
      var z := ParetoSource(r, list, v);
      SameCostSameWeights(r, v, z);
    }
    CheapAll(r, out, LeastHighCost(r, out));
    assert RangeFiltered(r, out) == out;
    ParetoFrontierShape(r, list);
    SortedUniqueIdentity(r, out);
    if |out| > 1 {
      KeepUndominatedAll(out, out);
    }
  }

  /** Filtering, coalescing and sorting give back a list that the range
      filter keeps whole and whose tuples are distinct and sorted. */
  lemma SortedUniqueIdentity(r: CostRange, list: seq<CostVector>)
    requires r.Valid() && |list| > 0 && RangeFiltered(r, list) == list && LexSorted(list)
    ensures SortedUnique(r, list) == list
  {
    var u := SortedUnique(r, list);
    forall v ensures v in u <==> v in list {
      if v in u {
        var w := SortedUniqueSource(r, list, v);
        CountForSorted(list, w);
      }
      if v in list {
        var x := SortedUniqueTarget(r, list, v);
        CountForSorted(list, v);
      }
    }
    SortedUniqueSorted(r, list);
    LexSortedUnique(u, list);
  }

  // ---------------------------------------------------------------------
  // The infeasible vector

  /** The infeasible tuple stands for no solution at all: it has multiplicity 0. */
  predicate InfeasibleEmpty(list: seq<CostVector>)
  {
    forall v :: v in list && v.cost.Infinite? ==> v.count == 0
  }

  lemma {:induction false} CountForInfinite(list: seq<CostVector>)
    requires InfeasibleEmpty(list)
    ensures CountFor(list, Infinite) == 0
  {
    if list != [] {
      var init := list[..|list| - 1];
      assert forall v :: v in init ==> v in list;
      CountForInfinite(init);
      assert list[|list| - 1] in list;
    }
  }

  /** The range filter keeps a feasible vector when there is one. */
  lemma RangeFilteredKeepsFeasible(r: CostRange, list: seq<CostVector>, w: CostVector)
    requires r.Valid() && w in list && w.cost.Finite?
    ensures exists v :: v in RangeFiltered(r, list) && v.cost.Finite?
  {
    var v :| v in list && HighCost(r, v) == LeastHighCost(r, list);
    assert AtMost(LeastHighCost(r, list), HighCost(r, w));
    RangeFilteredKeepsCheapest(r, list, v);
  }

  /** The frontier keeps multiplicity 0 on the infeasible tuple. */
  lemma ParetoInfeasibleEmpty(r: CostRange, list: seq<CostVector>)
    requires r.Valid() && |list| > 0 && InfeasibleEmpty(list)
    ensures InfeasibleEmpty(Pareto(r, list))
  {
    RangeFilteredSpec(r, list);
    SublistMembers(RangeFiltered(r, list), list);
    CountForInfinite(RangeFiltered(r, list));
    ParetoMembers(r, list);
  }

  /** An infeasible vector on the frontier means nothing feasible survived
      the range filter, and then it is the whole frontier. */
  lemma ParetoInfeasibleAlone(r: CostRange, list: seq<CostVector>, v: CostVector)
    requires r.Valid() && |list| > 0 && InfeasibleEmpty(list)
    requires v in Pareto(r, list) && v.cost.Infinite?
    ensures forall w :: w in RangeFiltered(r, list) ==> w.cost.Infinite?
    ensures Pareto(r, list) == [Infeasible]
  {
    var filtered := RangeFiltered(r, list);
    var u := SortedUnique(r, list);
    ParetoMembers(r, list);
    forall w | w in filtered ensures w.cost.Infinite? {
      assert !Dominates(w.cost, v.cost);
    }
    SortedUniqueMembers(r, list);
    assert u[0].cost.Infinite?;
    RangeFilteredSpec(r, list);
    SublistMembers(filtered, list);
    CountForInfinite(filtered);
  }

  /** A feasible input always survives the range filter, and then the
      infeasible tuple is pruned; otherwise the frontier is exactly the
      infeasible vector. */
  lemma ParetoInfeasible(r: CostRange, list: seq<CostVector>)
    requires r.Valid() && |list| > 0 && InfeasibleEmpty(list)
    ensures InfeasibleEmpty(Pareto(r, list))
    ensures (exists w :: w in list && w.cost.Finite?) ==> forall v :: v in Pareto(r, list) ==> v.cost.Finite?
    ensures (exists v :: v in Pareto(r, list) && v.cost.Infinite?) ==> Pareto(r, list) == [Infeasible]
  {
    ParetoInfeasibleEmpty(r, list);
    if exists v :: v in Pareto(r, list) && v.cost.Infinite? {
      var v :| v in Pareto(r, list) && v.cost.Infinite?;
      ParetoInfeasibleAlone(r, list, v);
      if exists w :: w in list && w.cost.Finite? {
        var w :| w in list && w.cost.Finite?;
        RangeFilteredKeepsFeasible(r, list, w);
      }
    }
  }

  /** The adjacent-pair prefilter can drop a vector that no vector of the
      range-filtered list dominates: both tuples below have c + d + s = 1, the
      cheaper one (one cospeciation, no cost at any weights) comes second in
      the lexicographic order, and neither its d nor its s exceeds its
      predecessor's. */
  lemma PrefilterDropsMinimal()
    ensures Undominated(DropExample()[1], RangeFiltered(DropRange(), DropExample()))
    ensures ParetoAsWritten(DropRange(), DropExample()) == [DropExample()[0]]
    ensures DropExample()[1] in Pareto(DropRange(), DropExample())
  {
    DropExampleUndominated();
    DropExamplePareto();
    DropExampleUnique();
    ParetoExactly(DropRange(), DropExample());
  }

  lemma DropExampleUndominated()
    ensures Undominated(DropExample()[1], RangeFiltered(DropRange(), DropExample()))
  {
    var list := DropExample();
    DropExampleFiltered();
    assert !Dominates(list[0].cost, list[1].cost);
    DominatesIrreflexive(list[1].cost);
  }

  lemma DropExamplePareto()
    ensures ParetoAsWritten(DropRange(), DropExample()) == [DropExample()[0]]
  {
    var r, list := DropRange(), DropExample();
    DropExampleFiltered();
    DropExampleUnique();
    DropExamplePrefiltered();
    assert ParetoAsWritten(r, list) == KeepUndominated(Prefiltered(list), list);
  }

  lemma DropExampleUnique()
    ensures SortedUnique(DropRange(), DropExample()) == DropExample()
  {
    DropExampleFiltered();
    DropExampleCoalesced();
    DropExampleSorted();
  }

  lemma DropExamplePrefiltered()
    ensures Prefiltered(DropExample()) == [DropExample()[0]]
    ensures KeepUndominated([DropExample()[0]], DropExample()) == [DropExample()[0]]
  {
    var list := DropExample();
    assert list[..1] == [list[0]];
    assert Undominated(list[0], list);
  }

  function DropRange(): CostRange
  {
    CostRange(0.0, 1.0, 0.0, 1.0)
  }

  function DropExample(): seq<CostVector>
  {
    [CostVector(Finite(0, 0, 1, 1), 1), CostVector(Finite(1, 0, 0, 0), 1)]
  }

  lemma DropExampleFiltered()
    ensures RangeFiltered(DropRange(), DropExample()) == DropExample()
  {
    var r, list := DropRange(), DropExample();
    var a := list[0];
    assert list[..1] == [a];
    assert LeastHighCost(r, list) == Bounded(0.0);
    assert Cheap(r, [a], Bounded(0.0)) == [a];
  }

  lemma DropExampleTuples()
    ensures Tuples(DropExample()) == [DropExample()[0].cost, DropExample()[1].cost]
  {
    var list := DropExample();
    assert list[..1] == [list[0]];
    assert Tuples([list[0]]) == [list[0].cost];
  }

  lemma DropExampleCoalesced()
    ensures Coalesced(DropExample()) == DropExample()
  {
    var list := DropExample();
    var a, b := list[0], list[1];
    DropExampleTuples();
    assert list[..1] == [a];
    assert CountFor(list, a.cost) == 1;
    assert CountFor(list, b.cost) == 1;
  }

  lemma DropExampleSorted()
    ensures SortLex(DropExample()) == DropExample()
  {
    var list := DropExample();
    var a, b := list[0], list[1];
    assert list[1..] == [b];
    assert SortLex([b]) == [b];
    assert LexLess(a.cost, b.cost);
  }

  /** The loop of `minimal`. */
  method Minimal(v: CostVector, list: seq<CostVector>) returns (b: bool)
    ensures b == Undominated(v, list)
  {
    for i := 0 to |list|
      invariant forall k :: 0 <= k < i ==> !Dominates(list[k].cost, v.cost)
    {
      if Dominates(list[i].cost, v.cost) {
        return false;
      }
    }
    return true;
  }

  /** `paretoFilter`, step by step in its fixed order, without the
      adjacent-pair prefilter: the frontier the dynamic programs use. */
  method ParetoFilter(r: CostRange, list: seq<CostVector>) returns (output: seq<CostVector>)
    requires r.Valid() && |list| > 0
    ensures output == Pareto(r, list)
  {
    var filtered := CVfilter(r, list);
    var uniqueList := CoalesceDuplicates(filtered);
    uniqueList := SortLex(uniqueList);
    assert uniqueList == SortedUnique(r, list);
    assert |uniqueList| > 0;
    if |uniqueList| == 1 {
      return uniqueList;
    }
    output := KeepMinimal(uniqueList, filtered);
  }

  /** `paretoFilter` as written, prefilter included. */
  method ParetoFilterAsWritten(r: CostRange, list: seq<CostVector>) returns (output: seq<CostVector>)
    requires r.Valid() && |list| > 0
    ensures output == ParetoAsWritten(r, list)
  {
    var filtered := CVfilter(r, list);
    var uniqueList := CoalesceDuplicates(filtered);
    uniqueList := SortLex(uniqueList);
    assert uniqueList == SortedUnique(r, list);
    assert |uniqueList| > 0;
    if |uniqueList| == 1 {
      return uniqueList;
    }
    var lexlist := AdjacentPrefilter(uniqueList);
    output := KeepMinimal(lexlist, filtered);
  }

  /** The prefilter loop of `paretoFilter`: keep the first vector, then each
      vector whose d or s exceeds that of its predecessor. */
  method AdjacentPrefilter(sorted: seq<CostVector>) returns (lexlist: seq<CostVector>)
    requires |sorted| > 0
    ensures lexlist == Prefiltered(sorted)
  {
    lexlist := [sorted[0]];
    for i := 1 to |sorted|
      invariant lexlist == Prefiltered(sorted[..i])
    {
      var predecessor, current := sorted[i - 1], sorted[i];
      assert sorted[..i + 1][..i] == sorted[..i];
      if Increases(predecessor.cost, current.cost) {
        lexlist := lexlist + [current];
      }
    }
    assert sorted[..|sorted|] == sorted;
  }

  /** The last loop of `paretoFilter`: keep each candidate that `minimal`
      accepts against the range-filtered pool. */
  method KeepMinimal(candidates: seq<CostVector>, pool: seq<CostVector>) returns (output: seq<CostVector>)
    ensures output == KeepUndominated(candidates, pool)
  {
    output := [];
    for i := 0 to |candidates|
      invariant output == KeepUndominated(candidates[..i], pool)
    {
      var v := candidates[i];
      assert candidates[..i + 1][..i] == candidates[..i];
      var keep := Minimal(v, pool);
      if keep {
        output := output + [v];
      }
    }
    assert candidates[..|candidates|] == candidates;
  }
}
