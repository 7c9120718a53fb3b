/** The memoized solver itself: an object whose A, C and Best tables and
    whose host-tree index are dictionaries it fills in as it recurses.  Every
    method is proved to return what the pure dynamic program of
    ReconcileSpec defines, and every table entry it stores agrees with it. */
module ReconcileEngine {
  import opened CostVectors
  import opened Trees
  import opened Frontier
  import opened ReconcileSpec
  import opened MemoTables

  class ReconcileAlgorithm {
    /** The switch and loss cost ranges, fixed at construction. */
    const r: CostRange

    /** The A, C and Best tables, keyed by (parasite edge, host edge). */
    var Amemo: map<(EdgeId, EdgeId), seq<CostVector>>
    var Cmemo: map<(EdgeId, EdgeId), seq<CostVector>>
    var Bestmemo: map<(EdgeId, EdgeId), seq<CostVector>>

    /** The host-tree index: Descendants[e] lists the strict descendants of
        e, Ancestors[e] the edges that list e among theirs. */
    var Ancestors: map<EdgeId, seq<EdgeId>>
    var Descendants: map<EdgeId, seq<EdgeId>>

    /** Every stored table entry is the value the dynamic program defines
        for its pair of edges. */
    ghost predicate MemoSound(x: Problem)
      requires r.Valid() && ValidProblem(x)
      reads `Amemo, `Cmemo, `Bestmemo
    {
      AliveTable(r, x, Amemo) && OptimalTable(r, x, Cmemo) && SwitchTable(r, x, Bestmemo)
    }

    /** The index holds, for every host edge, its descendant list and
        exactly its ancestors. */
    ghost predicate HostIndexed(host: Tree)
      requires ValidTree(host)
      reads `Ancestors, `Descendants
    {
      Indexed(host, Ancestors, Descendants)
    }

    /** What every step of the recursion relies on. */
    ghost predicate Ready(x: Problem)
      reads this
    {
      Consistent(r, x, Amemo, Cmemo, Bestmemo, Ancestors, Descendants)
    }

    /** The tables still have every key of the given earlier tables.  With
        `Ready` before and after, the entries are unchanged too
        (`MemoTables.ReadyTablesRetain`). */
    ghost predicate Keeps(a: Table, c: Table, b: Table)
      reads `Amemo, `Cmemo, `Bestmemo
    {
      a.Keys <= Amemo.Keys && c.Keys <= Cmemo.Keys && b.Keys <= Bestmemo.Keys
    }

    /** Empty tables and an empty index. */
    constructor (r: CostRange)
      ensures this.r == r
      ensures Amemo == map[] && Cmemo == map[] && Bestmemo == map[]
      ensures Ancestors == map[] && Descendants == map[]
    {
      this.r := r;
      Amemo, Cmemo, Bestmemo := map[], map[], map[];
      Ancestors, Descendants := map[], map[];
    }

    /** `reconcile`: index the host tree, then the frontier of C(pTop, eh)
        over every host edge in enumeration order.  The tables are not
        cleared, so they must already agree with this problem (as empty
        tables do). */
    method Reconcile(x: Problem) returns (solutions: seq<CostVector>)
      requires r.Valid() && ValidProblem(x) && ParasiteTop in x.parasite.edges && |x.host.order| > 0
      requires MemoSound(x)
      modifies this
      ensures solutions == Reconciled(r, x)
      ensures Ready(x)
    {
      ghost var a, c, b := Amemo, Cmemo, Bestmemo;
      AncestorsAndDescendants(x.host);
      ConsistentOnceIndexed(r, x, a, c, b, Ancestors, Descendants);
      solutions := SolveIndexed(x);
    }

    /** The part of `reconcile` after the host tree is indexed. */
    method SolveIndexed(x: Problem) returns (solutions: seq<CostVector>)
      requires Ready(x) && ParasiteTop in x.parasite.edges && |x.host.order| > 0
      modifies `Amemo, `Cmemo, `Bestmemo
      ensures solutions == Reconciled(r, x)
      ensures Ready(x)
    {
      var all := TopSolutions(x);
      TopCostsNonEmpty(r, x, x.host.order);
      solutions := ParetoFilter(r, all);
    }

    /** The `map`/`reduce` of `reconcile`: C(pTop, eh) for every host edge,
        concatenated in enumeration order. */
    method TopSolutions(x: Problem) returns (all: seq<CostVector>)
      requires Ready(x) && ParasiteTop in x.parasite.edges
      modifies `Amemo, `Cmemo, `Bestmemo
      ensures all == TopCosts(r, x, x.host.order)
      ensures Ready(x)
    {
      all := [];
      for i := 0 to |x.host.order|
        invariant TopUpTo(r, x, i, all)
        invariant Ready(x)
      {
        all := TopSolution(x, i, all);
      }
      TopComplete(r, x, all);
    }

    /** One step of the top-level `map`: C(pTop, e) for host edge i. */
    method TopSolution(x: Problem, i: nat, sofar: seq<CostVector>) returns (all: seq<CostVector>)
      requires Ready(x) && ParasiteTop in x.parasite.edges && i < |x.host.order|
      requires TopUpTo(r, x, i, sofar)
      modifies `Amemo, `Cmemo, `Bestmemo
      ensures TopUpTo(r, x, i + 1, all)
      ensures Ready(x)
    {
      TopCostsStep(r, x, i);
      var c := OptimalEdgeCost(x, ParasiteTop, x.host.order[i]);
      all := sofar + c;
    }

    /** `ancestorsAndDescendants`: the descendant list of every host edge,
        then every edge appended to the ancestor list of each of its
        descendants. */
    method AncestorsAndDescendants(host: Tree)
      requires ValidTree(host)
      modifies `Ancestors, `Descendants
      ensures HostIndexed(host)
      ensures forall e :: e in host.edges && TipEdge(host, e) ==> Descendants[e] == []
    {
      var order := host.order;
      StoreDescendants(host);
      ResetAncestors(order);
      for i := 0 to |order|
        modifies `Ancestors
        invariant forall d :: d in order ==> d in Ancestors
        invariant forall d, a :: d in order ==> (a in Ancestors[d] <==> ListedAbove(a, d, order[..i]))
      {
        assert order[..i + 1] == order[..i] + [order[i]];
        AddAncestor(order, order[..i], order[i]);
      }
      assert order[..|order|] == order;
      IndexedFromLists(host);
    }

    /** The first loop: Descendants[e] := descendants(e) for every edge. */
    method StoreDescendants(host: Tree)
      requires ValidTree(host)
      modifies `Descendants
      ensures forall e :: e in host.edges ==> e in Descendants && Descendants[e] == Trees.Descendants(host, e)
    {
      var order := host.order;
      for i := 0 to |order|
        invariant forall e :: e in order[..i] ==> e in Descendants && Descendants[e] == Trees.Descendants(host, e)
      {
        var e := order[i];
        assert order[..i + 1] == order[..i] + [e];
        Descendants := Descendants[e := Trees.Descendants(host, e)];
      }
      assert order[..|order|] == order;
    }

    /** The second loop: an empty ancestor list for every edge. */
    method ResetAncestors(order: seq<EdgeId>)
      modifies `Ancestors
      ensures forall e :: e in order ==> e in Ancestors && Ancestors[e] == []
    {
      for i := 0 to |order|
        invariant forall e :: e in order[..i] ==> e in Ancestors && Ancestors[e] == []
      {
        assert order[..i + 1] == order[..i] + [order[i]];
        Ancestors := Ancestors[order[i] := []];
      }
      assert order[..|order|] == order;
    }

    /** The stored lists, read as relations, are the descendant and ancestor
        relations of the tree. */
    lemma IndexedFromLists(host: Tree)
      requires ValidTree(host)
      requires forall e :: e in host.edges ==> e in Descendants && Descendants[e] == Trees.Descendants(host, e)
      requires forall d :: d in host.order ==> d in Ancestors
      requires forall d, a :: d in host.order ==> (a in Ancestors[d] <==> ListedAbove(a, d, host.order))
      ensures HostIndexed(host)
      ensures forall e :: e in host.edges && TipEdge(host, e) ==> Descendants[e] == []
    {
    }

    /** `a` is one of `done` and its stored descendant list names `d`. */
    ghost predicate ListedAbove(a: EdgeId, d: EdgeId, done: seq<EdgeId>)
      reads `Descendants
    {
      a in done && a in Descendants && d in Descendants[a]
    }

    /** The inner loop of `ancestorsAndDescendants` for the edge e: it is
        appended to the ancestor list of each of its descendants. */
    method AddAncestor(keys: seq<EdgeId>, done: seq<EdgeId>, e: EdgeId)
      requires e in Descendants && (forall d :: d in Descendants[e] ==> d in keys)
      requires forall d :: d in keys ==> d in Ancestors
      requires forall d, a :: d in keys ==> (a in Ancestors[d] <==> ListedAbove(a, d, done))
      modifies `Ancestors
      ensures forall d :: d in keys ==> d in Ancestors
      ensures forall d, a :: d in keys ==> (a in Ancestors[d] <==> ListedAbove(a, d, done + [e]))
    {
      var below := Descendants[e];
      for j := 0 to |below|
        invariant forall d :: d in keys ==> d in Ancestors
        invariant forall d, a :: d in keys ==>
          (a in Ancestors[d] <==> ListedAbove(a, d, done) || (a == e && d in below[..j]))
      {
        var d := below[j];
        assert below[..j + 1] == below[..j] + [d];
        Ancestors := Ancestors[d := Ancestors[d] + [e]];
      }
      assert below[..|below|] == below;
    }

    /** `optimalEdgeCost`, the C table: a stored entry is returned as is;
        a parasite tip passes through A(ep, eh) without being stored; an
        internal parasite edge is computed and stored. */
    method OptimalEdgeCost(x: Problem, ep: EdgeId, eh: EdgeId) returns (output: seq<CostVector>)
      requires Ready(x) && ep in x.parasite.edges && eh in x.host.edges
      modifies `Amemo, `Cmemo, `Bestmemo
      ensures output == OptimalCost(r, x, ep, eh)
      ensures Ready(x) && Keeps(old(Amemo), old(Cmemo), old(Bestmemo))
      ensures (ep, eh) in Cmemo <==> !TipEdge(x.parasite, ep)
      decreases Rank(x.parasite)[ep], 1, Rank(x.host)[eh], 4
    {
      if (ep, eh) in Cmemo {
        OptimalLookup(r, x, Amemo, Cmemo, Bestmemo, Ancestors, Descendants, ep, eh);
        return Cmemo[(ep, eh)];
      }
      var passThrough := AliveEdgeCost(x, ep, eh);
      if TipEdge(x.parasite, ep) {
        return passThrough;
      }
      output := OptimalChoices(x, ep, eh, passThrough);
      StoreOptimal(x, ep, eh, output);
    }

    /** The frontier of pass-through, duplication and both switches for an
        internal parasite edge. */
    method OptimalChoices(x: Problem, ep: EdgeId, eh: EdgeId, passThrough: seq<CostVector>)
      returns (output: seq<CostVector>)
      requires Ready(x) && ep in x.parasite.edges && eh in x.host.edges
      requires !TipEdge(x.parasite, ep) && passThrough == AliveCost(r, x, ep, eh)
      modifies `Amemo, `Cmemo, `Bestmemo
      ensures output == OptimalCost(r, x, ep, eh)
      ensures Ready(x) && Keeps(old(Amemo), old(Cmemo), old(Bestmemo))
      decreases Rank(x.parasite)[ep], 1, Rank(x.host)[eh], 3
    {
      var pl, pr := Left(x.parasite, ep), Right(x.parasite, ep);
      var duplicate := Duplicate(x, ep, eh);
      var switch1 := SwitchOneWay(x, pl, pr, eh);
      var switch2 := SwitchOneWay(x, pr, pl, eh);
      var switch := switch1 + switch2;
      assert OptimalCandidates(r, x, ep, eh) == passThrough + duplicate + switch;
      output := ParetoFilter(r, passThrough + duplicate + switch);
    }

    method StoreOptimal(x: Problem, ep: EdgeId, eh: EdgeId, output: seq<CostVector>)
      requires Ready(x) && ep in x.parasite.edges && eh in x.host.edges
      requires !TipEdge(x.parasite, ep) && output == OptimalCost(r, x, ep, eh)
      modifies `Cmemo
      ensures Cmemo == old(Cmemo)[(ep, eh) := output]
      ensures Ready(x) && Keeps(old(Amemo), old(Cmemo), old(Bestmemo))
    {
      OptimalStored(r, x, Amemo, Cmemo, Bestmemo, Ancestors, Descendants, ep, eh, output);
      PutCmemo(ep, eh, output);
    }

    /** Duplication on eh: both children of ep start on eh. */
    method Duplicate(x: Problem, ep: EdgeId, eh: EdgeId) returns (duplicate: seq<CostVector>)
      requires Ready(x) && ep in x.parasite.edges && eh in x.host.edges
      requires !TipEdge(x.parasite, ep)
      modifies `Amemo, `Cmemo, `Bestmemo
      ensures duplicate == DuplicationCosts(r, x, ep, eh)
      ensures Ready(x) && Keeps(old(Amemo), old(Cmemo), old(Bestmemo))
      decreases Rank(x.parasite)[ep], 1, Rank(x.host)[eh], 0
    {
      var pl, pr := Left(x.parasite, ep), Right(x.parasite, ep);
      var left := OptimalEdgeCost(x, pl, eh);
      var right := OptimalEdgeCost(x, pr, eh);
      var merged := Merge(left, right);
      duplicate := Shift(DuplicationUnit, merged);
    }

    /** A switch on eh: the child `stay` starts on eh and the child `leave`
        lands on a switch target. */
    method SwitchOneWay(x: Problem, stay: EdgeId, leave: EdgeId, eh: EdgeId) returns (switch: seq<CostVector>)
      requires Ready(x) && stay in x.parasite.edges && leave in x.parasite.edges && eh in x.host.edges
      modifies `Amemo, `Cmemo, `Bestmemo
      ensures switch == Shift(SwitchUnit, Merged(OptimalCost(r, x, stay, eh), ReconcileSpec.Switches(r, x, leave, eh, x.host.order)))
      ensures Ready(x) && Keeps(old(Amemo), old(Cmemo), old(Bestmemo))
      decreases if Rank(x.parasite)[stay] < Rank(x.parasite)[leave] then Rank(x.parasite)[leave] else Rank(x.parasite)[stay], 5, 0, 0
    {
      var here := OptimalEdgeCost(x, stay, eh);
      var away := Switches(x, leave, eh);
      var merged := Merge(here, away);
      switch := Shift(SwitchUnit, merged);
    }

    /** `aliveEdgeCost`, the A table: a stored entry is returned as is; the
        host-tip base cases are returned without being stored; an internal
        host edge is computed and stored. */
    method AliveEdgeCost(x: Problem, ep: EdgeId, eh: EdgeId) returns (output: seq<CostVector>)
      requires Ready(x) && ep in x.parasite.edges && eh in x.host.edges
      modifies `Amemo, `Cmemo, `Bestmemo
      ensures output == AliveCost(r, x, ep, eh)
      ensures Ready(x) && Keeps(old(Amemo), old(Cmemo), old(Bestmemo))
      ensures (ep, eh) in Amemo <==> !TipEdge(x.host, eh)
      decreases Rank(x.parasite)[ep], 1, Rank(x.host)[eh], 2
    {
      if (ep, eh) in Amemo {
        AliveLookup(r, x, Amemo, Cmemo, Bestmemo, Ancestors, Descendants, ep, eh);
        return Amemo[(ep, eh)];
      }
      if TipEdge(x.host, eh) {
        if TipEdge(x.parasite, ep) && x.phi[EndVertex(x.parasite, ep)] == EndVertex(x.host, eh) {
          return [CostVector(Finite(0, 0, 0, 0), 1)];
        } else {
          return [CostVector(Infinite, 0)];
        }
      }
      output := AliveChoices(x, ep, eh);
      StoreAlive(x, ep, eh, output);
    }

    /** The frontier of cospeciation and both losses on an internal host
        edge. */
    method AliveChoices(x: Problem, ep: EdgeId, eh: EdgeId) returns (output: seq<CostVector>)
      requires Ready(x) && ep in x.parasite.edges && eh in x.host.edges
      requires !TipEdge(x.host, eh)
      modifies `Amemo, `Cmemo, `Bestmemo
      ensures output == AliveCost(r, x, ep, eh)
      ensures Ready(x) && Keeps(old(Amemo), old(Cmemo), old(Bestmemo))
      decreases Rank(x.parasite)[ep], 1, Rank(x.host)[eh], 1
    {
      var cospeciation := Cospeciation(x, ep, eh);
      var hl, hr := Left(x.host, eh), Right(x.host, eh);
      var down1 := OptimalEdgeCost(x, ep, hl);
      var down2 := OptimalEdgeCost(x, ep, hr);
      var loss := Shift(LossUnit, down1) + Shift(LossUnit, down2);
      assert AliveCandidates(r, x, ep, eh) == cospeciation + loss;
      output := ParetoFilter(r, cospeciation + loss);
    }

    method StoreAlive(x: Problem, ep: EdgeId, eh: EdgeId, output: seq<CostVector>)
      requires Ready(x) && ep in x.parasite.edges && eh in x.host.edges
      requires !TipEdge(x.host, eh) && output == AliveCost(r, x, ep, eh)
      modifies `Amemo
      ensures Amemo == old(Amemo)[(ep, eh) := output]
      ensures Ready(x) && Keeps(old(Amemo), old(Cmemo), old(Bestmemo))
    {
      AliveStored(r, x, Amemo, Cmemo, Bestmemo, Ancestors, Descendants, ep, eh, output);
      PutAmemo(ep, eh, output);
    }

    /** The cospeciation candidates of `aliveEdgeCost` on an internal host
        edge: infeasible for a parasite tip, otherwise both pairings. */
    method Cospeciation(x: Problem, ep: EdgeId, eh: EdgeId) returns (cospeciation: seq<CostVector>)
      requires Ready(x) && ep in x.parasite.edges && eh in x.host.edges
      requires !TipEdge(x.host, eh)
      modifies `Amemo, `Cmemo, `Bestmemo
      ensures cospeciation == CospeciationCosts(r, x, ep, eh)
      ensures Ready(x) && Keeps(old(Amemo), old(Cmemo), old(Bestmemo))
      decreases Rank(x.parasite)[ep], 1, Rank(x.host)[eh], 0
    {
      if TipEdge(x.parasite, ep) {
        return [CostVector(Infinite, 0)];
      }
      var hl, hr := Left(x.host, eh), Right(x.host, eh);
      var pl, pr := Left(x.parasite, ep), Right(x.parasite, ep);
      var ll := OptimalEdgeCost(x, pl, hl);
      var rr := OptimalEdgeCost(x, pr, hr);
      var same := Merge(ll, rr);
      var lr := OptimalEdgeCost(x, pl, hr);
      var rl := OptimalEdgeCost(x, pr, hl);
      var crossed := Merge(lr, rl);
      cospeciation := Shift(CospeciationUnit, same) + Shift(CospeciationUnit, crossed);
    }

    /** `switches`: a stored entry is returned as is; otherwise the landing
        lists are collected and stored in the Best table. */
    method Switches(x: Problem, ep: EdgeId, eh: EdgeId) returns (output: seq<CostVector>)
      requires Ready(x) && ep in x.parasite.edges && eh in x.host.edges
      modifies `Amemo, `Cmemo, `Bestmemo
      ensures output == ReconcileSpec.Switches(r, x, ep, eh, x.host.order)
      ensures Ready(x) && Keeps(old(Amemo), old(Cmemo), old(Bestmemo))
      ensures (ep, eh) in Bestmemo
      decreases Rank(x.parasite)[ep], 4, 0, 0
    {
      if (ep, eh) in Bestmemo {
        SwitchLookup(r, x, Amemo, Cmemo, Bestmemo, Ancestors, Descendants, ep, eh);
        return Bestmemo[(ep, eh)];
      }
      output := Landings(x, ep, eh);
      StoreSwitches(x, ep, eh, output);
    }

    /** The loop of `switches`: C(ep, e) for every host edge e outside
        Ancestors[eh] and Descendants[eh], in enumeration order. */
    method Landings(x: Problem, ep: EdgeId, eh: EdgeId) returns (output: seq<CostVector>)
      requires Ready(x) && ep in x.parasite.edges && eh in x.host.edges
      modifies `Amemo, `Cmemo, `Bestmemo
      ensures output == ReconcileSpec.Switches(r, x, ep, eh, x.host.order)
      ensures Ready(x) && Keeps(old(Amemo), old(Cmemo), old(Bestmemo))
      decreases Rank(x.parasite)[ep], 3, 0, 0
    {
      output := [];
      for i := 0 to |x.host.order|
        invariant LandingsUpTo(r, x, ep, eh, i, output)
        invariant Ready(x) && Keeps(old(Amemo), old(Cmemo), old(Bestmemo))
      {
        output := Landing(x, ep, eh, i, output);
      }
      LandingsComplete(r, x, ep, eh, output);
    }

    /** One step of the `switches` loop: host edge i is kept when it is
        neither an ancestor nor a descendant of eh. */
    method Landing(x: Problem, ep: EdgeId, eh: EdgeId, i: nat, sofar: seq<CostVector>) returns (output: seq<CostVector>)
      requires Ready(x) && ep in x.parasite.edges && eh in x.host.edges && i < |x.host.order|
      requires LandingsUpTo(r, x, ep, eh, i, sofar)
      modifies `Amemo, `Cmemo, `Bestmemo
      ensures LandingsUpTo(r, x, ep, eh, i + 1, output)
      ensures Ready(x) && Keeps(old(Amemo), old(Cmemo), old(Bestmemo))
      decreases Rank(x.parasite)[ep], 2, 0, 0
    {
      var switchEdge := x.host.order[i];
      SwitchesStep(r, x, ep, eh, i);
      IndexedLanding(x.host, Ancestors, Descendants, eh, switchEdge);
      output := sofar;
      if switchEdge !in Ancestors[eh] && switchEdge !in Descendants[eh] {
        var c := OptimalEdgeCost(x, ep, switchEdge);
        output := output + c;
      }
    }

    method StoreSwitches(x: Problem, ep: EdgeId, eh: EdgeId, output: seq<CostVector>)
      requires Ready(x) && ep in x.parasite.edges && eh in x.host.edges
      requires output == ReconcileSpec.Switches(r, x, ep, eh, x.host.order)
      modifies `Bestmemo
      ensures Bestmemo == old(Bestmemo)[(ep, eh) := output]
      ensures Ready(x) && Keeps(old(Amemo), old(Cmemo), old(Bestmemo))
    {
      SwitchStored(r, x, Amemo, Cmemo, Bestmemo, Ancestors, Descendants, ep, eh, output);
      PutBestmemo(ep, eh, output);
    }

    /** The dictionary assignments themselves: one key of one table set,
        every other entry of every table kept. */
    method PutAmemo(ep: EdgeId, eh: EdgeId, output: seq<CostVector>)
      modifies `Amemo
      ensures Amemo == old(Amemo)[(ep, eh) := output]
      ensures Keeps(old(Amemo), old(Cmemo), old(Bestmemo))
    {
      Amemo := Amemo[(ep, eh) := output];
    }

    method PutCmemo(ep: EdgeId, eh: EdgeId, output: seq<CostVector>)
      modifies `Cmemo
      ensures Cmemo == old(Cmemo)[(ep, eh) := output]
      ensures Keeps(old(Amemo), old(Cmemo), old(Bestmemo))
    {
      Cmemo := Cmemo[(ep, eh) := output];
    }

    method PutBestmemo(ep: EdgeId, eh: EdgeId, output: seq<CostVector>)
      modifies `Bestmemo
      ensures Bestmemo == old(Bestmemo)[(ep, eh) := output]
      ensures Keeps(old(Amemo), old(Cmemo), old(Bestmemo))
    {
      Bestmemo := Bestmemo[(ep, eh) := output];
    }

    /** `merge`: v + w for every v of the first list and w of the second,
        in row-major order. */
    method Merge(list1: seq<CostVector>, list2: seq<CostVector>) returns (output: seq<CostVector>)
      ensures output == Merged(list1, list2)
    {
      output := [];
      for i := 0 to |list1|
        invariant output == Merged(list1[..i], list2)
      {
        assert list1[..i + 1][..i] == list1[..i];
        var v := list1[i];
        for j := 0 to |list2|
          invariant output == Merged(list1[..i], list2) + Shift(v, list2[..j])
        {
          assert Shift(v, list2[..j + 1]) == Shift(v, list2[..j]) + [Add(v, list2[j])];
          output := output + [Add(v, list2[j])];
        }
        assert list2[..|list2|] == list2;
      }
      assert list1[..|list1|] == list1;
    }
  }
}
