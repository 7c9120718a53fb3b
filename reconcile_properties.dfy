/** What the tables of the dynamic program promise: every entry is a
    Pareto frontier, its feasible vectors account for each speciation of the
    parasite subtree exactly once, the infeasible vector appears only alone,
    and the switch lists hold exactly the C values of the switch targets. */
module ReconcileProperties {
  import opened CostVectors
  import opened Trees
  import opened Frontier
  import opened ReconcileSpec

  // ---------------------------------------------------------------------
  // Base cases and switch landing sites

  /** At a host tip, A(ep, eh) is the zero vector exactly when phi places
      the parasite tip ep on eh's tip, and the infeasible vector otherwise. */
  lemma AliveAtHostTip(r: CostRange, x: Problem, ep: EdgeId, eh: EdgeId)
    requires r.Valid() && ValidProblem(x) && ep in x.parasite.edges && eh in x.host.edges
    requires TipEdge(x.host, eh)
    ensures AliveCost(r, x, ep, eh) == [Zero] <==> TipMatches(x, ep, eh)
    ensures !TipMatches(x, ep, eh) ==> AliveCost(r, x, ep, eh) == [Infeasible]
  {
  }

  /** Nothing but passing through is open to a parasite tip. */
  lemma OptimalAtParasiteTip(r: CostRange, x: Problem, ep: EdgeId, eh: EdgeId)
    requires r.Valid() && ValidProblem(x) && ep in x.parasite.edges && eh in x.host.edges
    requires TipEdge(x.parasite, ep)
    ensures OptimalCost(r, x, ep, eh) == AliveCost(r, x, ep, eh)
  {
  }

  /** Ancestors and descendants are strict, so a switch may land on the
      edge it leaves; it may never land on an ancestor or a descendant. */
  lemma SelfIsSwitchTarget(host: Tree, eh: EdgeId, e: EdgeId)
    requires ValidTree(host) && eh in host.edges
    ensures SwitchTarget(host, eh, eh)
    ensures e in Descendants(host, eh) || IsAncestor(host, e, eh) ==> !SwitchTarget(host, eh, e)
  {
    NotOwnDescendant(host, eh);
  }

  /** `switches(ep, eh)` holds exactly the vectors of C(ep, e) for the switch
      targets e among the host edges considered. */
  lemma {:induction false} SwitchesMembers(r: CostRange, x: Problem, ep: EdgeId, eh: EdgeId, edges: seq<EdgeId>, v: CostVector)
    requires r.Valid() && ValidProblem(x) && ep in x.parasite.edges && eh in x.host.edges
    requires forall e :: e in edges ==> e in x.host.edges
    ensures v in Switches(r, x, ep, eh, edges) <==>
      exists e :: e in edges && SwitchTarget(x.host, eh, e) && v in OptimalCost(r, x, ep, e)
  {
    if edges != [] {
      var init, last := edges[..|edges| - 1], edges[|edges| - 1];
      var tail := if SwitchTarget(x.host, eh, last) then OptimalCost(r, x, ep, last) else [];
      assert forall e :: e in init ==> e in edges;
      assert Switches(r, x, ep, eh, edges) == Switches(r, x, ep, eh, init) + tail;
      SwitchesMembers(r, x, ep, eh, init, v);
      if v in Switches(r, x, ep, eh, edges) {
        if v in Switches(r, x, ep, eh, init) {
          var e :| e in init && SwitchTarget(x.host, eh, e) && v in OptimalCost(r, x, ep, e);
          assert e in edges;
        } else {
          assert last in edges;
        }
      }
      if exists e :: e in edges && SwitchTarget(x.host, eh, e) && v in OptimalCost(r, x, ep, e) {
        var e :| e in edges && SwitchTarget(x.host, eh, e) && v in OptimalCost(r, x, ep, e);
        if e != last {
          InPrefix(edges, e);
        }
      }
    }
  }

  /** The switch list from eh always offers staying on eh itself. */
  lemma SwitchesIncludeSelf(r: CostRange, x: Problem, ep: EdgeId, eh: EdgeId)
    requires r.Valid() && ValidProblem(x) && ep in x.parasite.edges && eh in x.host.edges
    ensures forall v :: v in OptimalCost(r, x, ep, eh) ==> v in Switches(r, x, ep, eh, x.host.order)
  {
    SelfIsSwitchTarget(x.host, eh, eh);
    forall v | v in OptimalCost(r, x, ep, eh) ensures v in Switches(r, x, ep, eh, x.host.order) {
      SwitchesMembers(r, x, ep, eh, x.host.order, v);
    }
  }

  /** The union `reconcile` filters holds exactly the vectors of
      C(pTop, e) for the host edges e. */
  lemma {:induction false} TopCostsMembers(r: CostRange, x: Problem, edges: seq<EdgeId>, v: CostVector)
    requires r.Valid() && ValidProblem(x) && ParasiteTop in x.parasite.edges
    requires forall e :: e in edges ==> e in x.host.edges
    ensures v in TopCosts(r, x, edges) <==> exists e :: e in edges && v in OptimalCost(r, x, ParasiteTop, e)
  {
    if edges != [] {
      var init, last := edges[..|edges| - 1], edges[|edges| - 1];
      assert forall e :: e in init ==> e in edges;
      assert TopCosts(r, x, edges) == TopCosts(r, x, init) + OptimalCost(r, x, ParasiteTop, last);
      TopCostsMembers(r, x, init, v);
      if v in TopCosts(r, x, edges) {
        if v in TopCosts(r, x, init) {
          var e :| e in init && v in OptimalCost(r, x, ParasiteTop, e);
          assert e in edges;
        } else {
          assert last in edges;
        }
      }
      if exists e :: e in edges && v in OptimalCost(r, x, ParasiteTop, e) {
        var e :| e in edges && v in OptimalCost(r, x, ParasiteTop, e);
        if e != last {
          InPrefix(edges, e);
        }
      }
    }
  }

  // ---------------------------------------------------------------------
  // Event accounting

  /** Every feasible vector uses k events that place a speciation (c + d + s
      == k), and the infeasible tuple carries no solution. */
  predicate Accounted(list: seq<CostVector>, k: nat)
  {
    forall v :: v in list ==> if v.cost.Finite? then v.cost.c + v.cost.d + v.cost.s == k else v.count == 0
  }

  function Speciations(unit: CostVector): nat
    requires unit.cost.Finite?
  {
    unit.cost.c + unit.cost.d + unit.cost.s
  }

  lemma AccountedShift(unit: CostVector, list: seq<CostVector>, k: nat)
    requires unit.cost.Finite? && Accounted(list, k)
    ensures Accounted(Shift(unit, list), Speciations(unit) + k)
  {
    forall v | v in Shift(unit, list)
      ensures if v.cost.Finite? then v.cost.c + v.cost.d + v.cost.s == Speciations(unit) + k else v.count == 0
    {
      var i :| 0 <= i < |list| && Shift(unit, list)[i] == v;
      assert list[i] in list;
    }
  }

  lemma AccountedMerged(list1: seq<CostVector>, k1: nat, list2: seq<CostVector>, k2: nat)
    requires Accounted(list1, k1) && Accounted(list2, k2)
    ensures Accounted(Merged(list1, list2), k1 + k2)
  {
    forall x | x in Merged(list1, list2)
      ensures if x.cost.Finite? then x.cost.c + x.cost.d + x.cost.s == k1 + k2 else x.count == 0
    {
      MergedMembers(list1, list2, x);
      var v, w :| v in list1 && w in list2 && x == Add(v, w);
      AccountedAdd(v, k1, w, k2);
    }
  }

  lemma AccountedAdd(v: CostVector, k1: nat, w: CostVector, k2: nat)
    requires Accounted([v], k1) && Accounted([w], k2)
    ensures Accounted([Add(v, w)], k1 + k2)
  {
    assert v in [v] && w in [w];
    if v.cost.Infinite? {
      assert Add(v, w).count == 0 * w.count;
    } else if w.cost.Infinite? {
      assert Add(v, w).count == v.count * 0;
    }
  }

  lemma AccountedAppend(list1: seq<CostVector>, list2: seq<CostVector>, k: nat)
    requires Accounted(list1, k) && Accounted(list2, k)
    ensures Accounted(list1 + list2, k)
  {
  }

  lemma AccountedPareto(r: CostRange, list: seq<CostVector>, k: nat)
    requires r.Valid() && |list| > 0 && Accounted(list, k)
    ensures Accounted(Pareto(r, list), k)
  {
    ParetoCostsFromInput(r, list);
    ParetoInfeasibleEmpty(r, list);
  }

  lemma {:induction false} AliveAccounted(r: CostRange, x: Problem, ep: EdgeId, eh: EdgeId)
    requires r.Valid() && ValidProblem(x) && ep in x.parasite.edges && eh in x.host.edges
    ensures Accounted(AliveCost(r, x, ep, eh), InternalEdges(x.parasite, ep))
    decreases Rank(x.parasite)[ep], 1, Rank(x.host)[eh], 2
  {
    if TipEdge(x.host, eh) {
      AliveAtHostTipAccounted(r, x, ep, eh);
    } else {
      var cands := AliveCandidates(r, x, ep, eh);
      AliveCandidatesAccounted(r, x, ep, eh);
      AccountedPareto(r, cands, InternalEdges(x.parasite, ep));
      assert AliveCost(r, x, ep, eh) == Pareto(r, cands);
    }
  }

  lemma AliveAtHostTipAccounted(r: CostRange, x: Problem, ep: EdgeId, eh: EdgeId)
    requires r.Valid() && ValidProblem(x) && ep in x.parasite.edges && eh in x.host.edges
    requires TipEdge(x.host, eh)
    ensures Accounted(AliveCost(r, x, ep, eh), InternalEdges(x.parasite, ep))
  {
    if TipMatches(x, ep, eh) {
      assert AliveCost(r, x, ep, eh) == [Zero];
      assert InternalEdges(x.parasite, ep) == 0;
    } else {
      assert AliveCost(r, x, ep, eh) == [Infeasible];
    }
  }

  lemma {:induction false} AliveCandidatesAccounted(r: CostRange, x: Problem, ep: EdgeId, eh: EdgeId)
    requires r.Valid() && ValidProblem(x) && ep in x.parasite.edges && eh in x.host.edges
    requires !TipEdge(x.host, eh)
    ensures Accounted(AliveCandidates(r, x, ep, eh), InternalEdges(x.parasite, ep))
    decreases Rank(x.parasite)[ep], 1, Rank(x.host)[eh], 1
  {
    CospeciationAccounted(r, x, ep, eh);
    LossAccounted(r, x, ep, eh);
    AccountedAppend(CospeciationCosts(r, x, ep, eh), LossCosts(r, x, ep, eh), InternalEdges(x.parasite, ep));
    assert AliveCandidates(r, x, ep, eh) == CospeciationCosts(r, x, ep, eh) + LossCosts(r, x, ep, eh);
  }

  lemma {:induction false} CospeciationAccounted(r: CostRange, x: Problem, ep: EdgeId, eh: EdgeId)
    requires r.Valid() && ValidProblem(x) && ep in x.parasite.edges && eh in x.host.edges
    requires !TipEdge(x.host, eh)
    ensures Accounted(CospeciationCosts(r, x, ep, eh), InternalEdges(x.parasite, ep))
    decreases Rank(x.parasite)[ep], 1, Rank(x.host)[eh], 0
  {
    if TipEdge(x.parasite, ep) {
      assert CospeciationCosts(r, x, ep, eh) == [Infeasible];
    } else {
      var hl, hr := Left(x.host, eh), Right(x.host, eh);
      var pl, pr := Left(x.parasite, ep), Right(x.parasite, ep);
      var kl, kr := InternalEdges(x.parasite, pl), InternalEdges(x.parasite, pr);
      OptimalAccounted(r, x, pl, hl);
      OptimalAccounted(r, x, pr, hr);
      OptimalAccounted(r, x, pl, hr);
      OptimalAccounted(r, x, pr, hl);
      var same := Merged(OptimalCost(r, x, pl, hl), OptimalCost(r, x, pr, hr));
      var crossed := Merged(OptimalCost(r, x, pl, hr), OptimalCost(r, x, pr, hl));
      AccountedMerged(OptimalCost(r, x, pl, hl), kl, OptimalCost(r, x, pr, hr), kr);
      AccountedMerged(OptimalCost(r, x, pl, hr), kl, OptimalCost(r, x, pr, hl), kr);
      AccountedShift(CospeciationUnit, same, kl + kr);
      AccountedShift(CospeciationUnit, crossed, kl + kr);
      assert InternalEdges(x.parasite, ep) == Speciations(CospeciationUnit) + kl + kr;
      AccountedAppend(Shift(CospeciationUnit, same), Shift(CospeciationUnit, crossed), InternalEdges(x.parasite, ep));
      assert CospeciationCosts(r, x, ep, eh) == Shift(CospeciationUnit, same) + Shift(CospeciationUnit, crossed);
    }
  }

  lemma {:induction false} LossAccounted(r: CostRange, x: Problem, ep: EdgeId, eh: EdgeId)
    requires r.Valid() && ValidProblem(x) && ep in x.parasite.edges && eh in x.host.edges
    requires !TipEdge(x.host, eh)
    ensures Accounted(LossCosts(r, x, ep, eh), InternalEdges(x.parasite, ep))
    decreases Rank(x.parasite)[ep], 1, Rank(x.host)[eh], 0
  {
    var hl, hr := Left(x.host, eh), Right(x.host, eh);
    var k := InternalEdges(x.parasite, ep);
    var down1, down2 := OptimalCost(r, x, ep, hl), OptimalCost(r, x, ep, hr);
    OptimalAccounted(r, x, ep, hl);
    OptimalAccounted(r, x, ep, hr);
    AccountedShift(LossUnit, down1, k);
    AccountedShift(LossUnit, down2, k);
    AccountedAppend(Shift(LossUnit, down1), Shift(LossUnit, down2), k);
    assert LossCosts(r, x, ep, eh) == Shift(LossUnit, down1) + Shift(LossUnit, down2);
  }

  lemma {:induction false} OptimalAccounted(r: CostRange, x: Problem, ep: EdgeId, eh: EdgeId)
    requires r.Valid() && ValidProblem(x) && ep in x.parasite.edges && eh in x.host.edges
    ensures Accounted(OptimalCost(r, x, ep, eh), InternalEdges(x.parasite, ep))
    decreases Rank(x.parasite)[ep], 1, Rank(x.host)[eh], 4
  {
    if TipEdge(x.parasite, ep) {
      AliveAccounted(r, x, ep, eh);
      assert OptimalCost(r, x, ep, eh) == AliveCost(r, x, ep, eh);
    } else {
      OptimalCandidatesAccounted(r, x, ep, eh);
      AccountedPareto(r, OptimalCandidates(r, x, ep, eh), InternalEdges(x.parasite, ep));
      assert OptimalCost(r, x, ep, eh) == Pareto(r, OptimalCandidates(r, x, ep, eh));
    }
  }

  lemma {:induction false} OptimalCandidatesAccounted(r: CostRange, x: Problem, ep: EdgeId, eh: EdgeId)
    requires r.Valid() && ValidProblem(x) && ep in x.parasite.edges && eh in x.host.edges
    requires !TipEdge(x.parasite, ep)
    ensures Accounted(OptimalCandidates(r, x, ep, eh), InternalEdges(x.parasite, ep))
    decreases Rank(x.parasite)[ep], 1, Rank(x.host)[eh], 3
  {
    var k := InternalEdges(x.parasite, ep);
    AliveAccounted(r, x, ep, eh);
    DuplicationAccounted(r, x, ep, eh);
    SwitchCostsAccounted(r, x, ep, eh);
    AccountedAppend(AliveCost(r, x, ep, eh), DuplicationCosts(r, x, ep, eh), k);
    AccountedAppend(AliveCost(r, x, ep, eh) + DuplicationCosts(r, x, ep, eh), SwitchCosts(r, x, ep, eh), k);
    assert OptimalCandidates(r, x, ep, eh) == AliveCost(r, x, ep, eh) + DuplicationCosts(r, x, ep, eh) + SwitchCosts(r, x, ep, eh);
  }

  lemma {:induction false} DuplicationAccounted(r: CostRange, x: Problem, ep: EdgeId, eh: EdgeId)
    requires r.Valid() && ValidProblem(x) && ep in x.parasite.edges && eh in x.host.edges
    requires !TipEdge(x.parasite, ep)
    ensures Accounted(DuplicationCosts(r, x, ep, eh), InternalEdges(x.parasite, ep))
    decreases Rank(x.parasite)[ep], 1, Rank(x.host)[eh], 0
  {
    var pl, pr := Left(x.parasite, ep), Right(x.parasite, ep);
    var kl, kr := InternalEdges(x.parasite, pl), InternalEdges(x.parasite, pr);
    var both := Merged(OptimalCost(r, x, pl, eh), OptimalCost(r, x, pr, eh));
    OptimalAccounted(r, x, pl, eh);
    OptimalAccounted(r, x, pr, eh);
    AccountedMerged(OptimalCost(r, x, pl, eh), kl, OptimalCost(r, x, pr, eh), kr);
    AccountedShift(DuplicationUnit, both, kl + kr);
    assert InternalEdges(x.parasite, ep) == Speciations(DuplicationUnit) + kl + kr;
    assert DuplicationCosts(r, x, ep, eh) == Shift(DuplicationUnit, both);
  }

  lemma {:induction false} SwitchCostsAccounted(r: CostRange, x: Problem, ep: EdgeId, eh: EdgeId)
    requires r.Valid() && ValidProblem(x) && ep in x.parasite.edges && eh in x.host.edges
    requires !TipEdge(x.parasite, ep)
    ensures Accounted(SwitchCosts(r, x, ep, eh), InternalEdges(x.parasite, ep))
    decreases Rank(x.parasite)[ep], 1, Rank(x.host)[eh], 0
  {
    var pl, pr := Left(x.parasite, ep), Right(x.parasite, ep);
    var kl, kr := InternalEdges(x.parasite, pl), InternalEdges(x.parasite, pr);
    var order := x.host.order;
    OptimalAccounted(r, x, pl, eh);
    OptimalAccounted(r, x, pr, eh);
    SwitchesAccounted(r, x, pr, eh, order);
    SwitchesAccounted(r, x, pl, eh, order);
    AccountedMerged(OptimalCost(r, x, pl, eh), kl, Switches(r, x, pr, eh, order), kr);
    AccountedMerged(OptimalCost(r, x, pr, eh), kr, Switches(r, x, pl, eh, order), kl);
    var one := Merged(OptimalCost(r, x, pl, eh), Switches(r, x, pr, eh, order));
    var other := Merged(OptimalCost(r, x, pr, eh), Switches(r, x, pl, eh, order));
    AccountedShift(SwitchUnit, one, kl + kr);
    AccountedShift(SwitchUnit, other, kr + kl);
    assert InternalEdges(x.parasite, ep) == Speciations(SwitchUnit) + kl + kr;
    AccountedAppend(Shift(SwitchUnit, one), Shift(SwitchUnit, other), InternalEdges(x.parasite, ep));
    assert SwitchCosts(r, x, ep, eh) == Shift(SwitchUnit, one) + Shift(SwitchUnit, other);
  }

  lemma {:induction false} SwitchesAccounted(r: CostRange, x: Problem, ep: EdgeId, eh: EdgeId, edges: seq<EdgeId>)
    requires r.Valid() && ValidProblem(x) && ep in x.parasite.edges && eh in x.host.edges
    requires forall e :: e in edges ==> e in x.host.edges
    ensures Accounted(Switches(r, x, ep, eh, edges), InternalEdges(x.parasite, ep))
    decreases Rank(x.parasite)[ep], 2, |edges|, 0
  {
    if edges != [] {
      var init, last := edges[..|edges| - 1], edges[|edges| - 1];
      var k := InternalEdges(x.parasite, ep);
      assert forall e :: e in init ==> e in edges;
      SwitchesAccounted(r, x, ep, eh, init);
      if SwitchTarget(x.host, eh, last) {
        OptimalAccounted(r, x, ep, last);
        AccountedAppend(Switches(r, x, ep, eh, init), OptimalCost(r, x, ep, last), k);
        assert Switches(r, x, ep, eh, edges) == Switches(r, x, ep, eh, init) + OptimalCost(r, x, ep, last);
      } else {
        assert Switches(r, x, ep, eh, edges) == Switches(r, x, ep, eh, init) + [];
      }
    }
  }

  lemma {:induction false} TopCostsAccounted(r: CostRange, x: Problem, edges: seq<EdgeId>)
    requires r.Valid() && ValidProblem(x) && ParasiteTop in x.parasite.edges
    requires forall e :: e in edges ==> e in x.host.edges
    ensures Accounted(TopCosts(r, x, edges), InternalEdges(x.parasite, ParasiteTop))
  {
    if edges != [] {
      var init, last := edges[..|edges| - 1], edges[|edges| - 1];
      assert forall e :: e in init ==> e in edges;
      TopCostsAccounted(r, x, init);
      OptimalAccounted(r, x, ParasiteTop, last);
    }
  }

  // ---------------------------------------------------------------------
  // Every table entry is a frontier

  /** A frontier: strictly increasing in the lexicographic order, free of
      dominance, and holding the infeasible vector only on its own. */
  predicate IsFrontier(list: seq<CostVector>)
  {
    && LexSorted(list)
    && (forall v, w :: v in list && w in list ==> !Dominates(w.cost, v.cost))
    && ((exists v :: v in list && v.cost.Infinite?) ==> list == [Infeasible])
  }

  lemma ParetoIsFrontier(r: CostRange, list: seq<CostVector>, k: nat)
    requires r.Valid() && |list| > 0 && Accounted(list, k)
    ensures IsFrontier(Pareto(r, list))
  {
    ParetoFrontierShape(r, list);
    ParetoInfeasible(r, list);
  }

  /** Every C(ep, eh) is a frontier whose feasible vectors account for each
      speciation below ep exactly once. */
  lemma OptimalIsFrontier(r: CostRange, x: Problem, ep: EdgeId, eh: EdgeId)
    requires r.Valid() && ValidProblem(x) && ep in x.parasite.edges && eh in x.host.edges
    ensures IsFrontier(OptimalCost(r, x, ep, eh))
    ensures Accounted(OptimalCost(r, x, ep, eh), InternalEdges(x.parasite, ep))
  {
    OptimalAccounted(r, x, ep, eh);
    if TipEdge(x.parasite, ep) {
      AliveIsFrontier(r, x, ep, eh);
    } else {
      OptimalCandidatesAccounted(r, x, ep, eh);
      ParetoIsFrontier(r, OptimalCandidates(r, x, ep, eh), InternalEdges(x.parasite, ep));
      assert OptimalCost(r, x, ep, eh) == Pareto(r, OptimalCandidates(r, x, ep, eh));
    }
  }

  /** Every A(ep, eh) is a frontier. */
  lemma AliveIsFrontier(r: CostRange, x: Problem, ep: EdgeId, eh: EdgeId)
    requires r.Valid() && ValidProblem(x) && ep in x.parasite.edges && eh in x.host.edges
    ensures IsFrontier(AliveCost(r, x, ep, eh))
  {
    if TipEdge(x.host, eh) {
      var v := if TipMatches(x, ep, eh) then Zero else Infeasible;
      assert AliveCost(r, x, ep, eh) == [v];
      SingletonIsFrontier(v);
    } else {
      AliveCandidatesAccounted(r, x, ep, eh);
      ParetoIsFrontier(r, AliveCandidates(r, x, ep, eh), InternalEdges(x.parasite, ep));
      assert AliveCost(r, x, ep, eh) == Pareto(r, AliveCandidates(r, x, ep, eh));
    }
  }

  lemma SingletonIsFrontier(v: CostVector)
    requires v.cost.Finite? || v == Infeasible
    ensures IsFrontier([v])
  {
    DominatesIrreflexive(v.cost);
  }

  /** `reconcile` returns a frontier of the union of C(pTop, eh) over the
      host edges, and each of its feasible vectors accounts for every
      speciation of the parasite tree. */
  lemma ReconciledIsFrontier(r: CostRange, x: Problem)
    requires r.Valid() && ValidProblem(x) && ParasiteTop in x.parasite.edges && |x.host.order| > 0
    ensures IsFrontier(Reconciled(r, x))
    ensures Accounted(Reconciled(r, x), InternalEdges(x.parasite, ParasiteTop))
  {
    var top := TopCosts(r, x, x.host.order);
    var k := InternalEdges(x.parasite, ParasiteTop);
    TopCostsNonEmpty(r, x, x.host.order);
    TopCostsAccounted(r, x, x.host.order);
    ParetoIsFrontier(r, top, k);
    AccountedPareto(r, top, k);
    assert Reconciled(r, x) == Pareto(r, top);
  }

  /** Each tuple `reconcile` returns is the tuple of a vector of C(pTop, e)
      for some host edge e. */
  lemma ReconciledFromTop(r: CostRange, x: Problem, v: CostVector)
    requires r.Valid() && ValidProblem(x) && ParasiteTop in x.parasite.edges && |x.host.order| > 0
    requires v in Reconciled(r, x)
    ensures exists e, w :: e in x.host.edges && w in OptimalCost(r, x, ParasiteTop, e) && w.cost == v.cost
  {
    var top := TopCosts(r, x, x.host.order);
    TopCostsNonEmpty(r, x, x.host.order);
    assert Reconciled(r, x) == Pareto(r, top);
    ParetoCostsFromInput(r, top);
    var w :| w in top && w.cost == v.cost;
    TopCostsMembers(r, x, x.host.order, w);
    var e :| e in x.host.order && w in OptimalCost(r, x, ParasiteTop, e);
    assert e in x.host.edges;
  }
}
