/** The dynamic program of the memoized reconciliation solver, as pure
    functions: the "alive" table A(ep, eh) (the parasite edge ep is on the
    host edge eh and does not leave it before its end), the "optimal" table
    C(ep, eh) (ep starts on eh), the switch landing lists and the answer at
    the dummy parasite edge. Each `paretoFilter` call is the corrected
    frontier `Pareto`, without the adjacent-pair prefilter. */
module ReconcileSpec {
  import opened CostVectors
  import opened Trees
  import opened Frontier

  /** The parasite tree, the host tree and the tip mapping phi from parasite
      tip vertices to host tip vertices. */
  datatype Problem = Problem(parasite: Tree, host: Tree, phi: map<Vertex, Vertex>)

  /** What the solver's callers supply: two well-formed trees, and a mapping
      entry for the end vertex of every parasite tip. */
  ghost predicate ValidProblem(x: Problem)
  {
    && ValidTree(x.parasite)
    && ValidTree(x.host)
    && forall ep :: ep in x.parasite.edges && TipEdge(x.parasite, ep) ==> EndVertex(x.parasite, ep) in x.phi
  }

  /** The host-tip base case: ep is a parasite tip that phi places on the
      tip at the end of eh. */
  predicate TipMatches(x: Problem, ep: EdgeId, eh: EdgeId)
    requires ValidProblem(x) && ep in x.parasite.edges && eh in x.host.edges
  {
    TipEdge(x.parasite, ep) && x.phi[EndVertex(x.parasite, ep)] == EndVertex(x.host, eh)
  }

  /** A switch from eh may land on e when e is neither an ancestor nor a
      descendant of eh; eh itself qualifies. */
  predicate SwitchTarget(host: Tree, eh: EdgeId, e: EdgeId)
    requires ValidTree(host) && eh in host.edges
  {
    !IsAncestor(host, e, eh) && e !in Descendants(host, eh)
  }

  /** The A table. */
  function AliveCost(r: CostRange, x: Problem, ep: EdgeId, eh: EdgeId): (out: seq<CostVector>)
    requires r.Valid() && ValidProblem(x) && ep in x.parasite.edges && eh in x.host.edges
    ensures |out| > 0
    decreases Rank(x.parasite)[ep], 1, Rank(x.host)[eh], 2
  {
    if TipEdge(x.host, eh) then
      if TipMatches(x, ep, eh) then [Zero] else [Infeasible]
    else
      ParetoNonEmpty(r, AliveCandidates(r, x, ep, eh));
      Pareto(r, AliveCandidates(r, x, ep, eh))
  }

  /** What A(ep, eh) chooses from on an internal host edge. */
  function AliveCandidates(r: CostRange, x: Problem, ep: EdgeId, eh: EdgeId): (out: seq<CostVector>)
    requires r.Valid() && ValidProblem(x) && ep in x.parasite.edges && eh in x.host.edges
    requires !TipEdge(x.host, eh)
    ensures |out| > 0
    decreases Rank(x.parasite)[ep], 1, Rank(x.host)[eh], 1
  {
    CospeciationCosts(r, x, ep, eh) + LossCosts(r, x, ep, eh)
  }

  /** A loss on eh: ep continues down either child of eh, tagged with one
      loss. */
  function LossCosts(r: CostRange, x: Problem, ep: EdgeId, eh: EdgeId): (out: seq<CostVector>)
    requires r.Valid() && ValidProblem(x) && ep in x.parasite.edges && eh in x.host.edges
    requires !TipEdge(x.host, eh)
    ensures |out| > 0
    decreases Rank(x.parasite)[ep], 1, Rank(x.host)[eh], 0
  {
    var hl, hr := Left(x.host, eh), Right(x.host, eh);
    Shift(LossUnit, OptimalCost(r, x, ep, hl)) + Shift(LossUnit, OptimalCost(r, x, ep, hr))
  }

  /** The cospeciation candidates of A(ep, eh) for an internal host edge:
      infeasible for a parasite tip, otherwise both pairings of the
      children, each tagged with one cospeciation. */
  function CospeciationCosts(r: CostRange, x: Problem, ep: EdgeId, eh: EdgeId): seq<CostVector>
    requires r.Valid() && ValidProblem(x) && ep in x.parasite.edges && eh in x.host.edges
    requires !TipEdge(x.host, eh)
    decreases Rank(x.parasite)[ep], 1, Rank(x.host)[eh], 0
  {
    if TipEdge(x.parasite, ep) then [Infeasible]
    else
      var hl, hr := Left(x.host, eh), Right(x.host, eh);
      var pl, pr := Left(x.parasite, ep), Right(x.parasite, ep);
      Shift(CospeciationUnit, Merged(OptimalCost(r, x, pl, hl), OptimalCost(r, x, pr, hr)))
      + Shift(CospeciationUnit, Merged(OptimalCost(r, x, pl, hr), OptimalCost(r, x, pr, hl)))
  }

  /** The C table. */
  function OptimalCost(r: CostRange, x: Problem, ep: EdgeId, eh: EdgeId): (out: seq<CostVector>)
    requires r.Valid() && ValidProblem(x) && ep in x.parasite.edges && eh in x.host.edges
    ensures |out| > 0
    decreases Rank(x.parasite)[ep], 1, Rank(x.host)[eh], 4
  {
    if TipEdge(x.parasite, ep) then AliveCost(r, x, ep, eh)
    else
      ParetoNonEmpty(r, OptimalCandidates(r, x, ep, eh));
      Pareto(r, OptimalCandidates(r, x, ep, eh))
  }

  /** What C(ep, eh) chooses from for an internal parasite edge. */
  function OptimalCandidates(r: CostRange, x: Problem, ep: EdgeId, eh: EdgeId): (out: seq<CostVector>)
    requires r.Valid() && ValidProblem(x) && ep in x.parasite.edges && eh in x.host.edges
    requires !TipEdge(x.parasite, ep)
    ensures |out| > 0
    decreases Rank(x.parasite)[ep], 1, Rank(x.host)[eh], 3
  {
    AliveCost(r, x, ep, eh) + DuplicationCosts(r, x, ep, eh) + SwitchCosts(r, x, ep, eh)
  }

  /** Duplication on eh: both children start on eh. */
  function DuplicationCosts(r: CostRange, x: Problem, ep: EdgeId, eh: EdgeId): seq<CostVector>
    requires r.Valid() && ValidProblem(x) && ep in x.parasite.edges && eh in x.host.edges
    requires !TipEdge(x.parasite, ep)
    decreases Rank(x.parasite)[ep], 1, Rank(x.host)[eh], 0
  {
    var pl, pr := Left(x.parasite, ep), Right(x.parasite, ep);
    Shift(DuplicationUnit, Merged(OptimalCost(r, x, pl, eh), OptimalCost(r, x, pr, eh)))
  }

  /** A switch on eh in either direction: one child stays on eh, the other
      lands on a switch target. */
  function SwitchCosts(r: CostRange, x: Problem, ep: EdgeId, eh: EdgeId): seq<CostVector>
    requires r.Valid() && ValidProblem(x) && ep in x.parasite.edges && eh in x.host.edges
    requires !TipEdge(x.parasite, ep)
    decreases Rank(x.parasite)[ep], 1, Rank(x.host)[eh], 0
  {
    var pl, pr := Left(x.parasite, ep), Right(x.parasite, ep);
    Shift(SwitchUnit, Merged(OptimalCost(r, x, pl, eh), Switches(r, x, pr, eh, x.host.order)))
    + Shift(SwitchUnit, Merged(OptimalCost(r, x, pr, eh), Switches(r, x, pl, eh, x.host.order)))
  }

  /** The specification of `switches(ep, eh)` over the host edges `edges`
      (the whole enumeration at the top): C(ep, e) for each switch target e,
      concatenated in enumeration order. */
  function Switches(r: CostRange, x: Problem, ep: EdgeId, eh: EdgeId, edges: seq<EdgeId>): seq<CostVector>
    requires r.Valid() && ValidProblem(x) && ep in x.parasite.edges && eh in x.host.edges
    requires forall e :: e in edges ==> e in x.host.edges
    decreases Rank(x.parasite)[ep], 2, |edges|, 0
  {
    if edges == [] then []
    else
      var e := edges[|edges| - 1];
      Switches(r, x, ep, eh, edges[..|edges| - 1])
      + (if SwitchTarget(x.host, eh, e) then OptimalCost(r, x, ep, e) else [])
  }

  /** C(pTop, e) for each host edge e of `edges`, concatenated in order. */
  function TopCosts(r: CostRange, x: Problem, edges: seq<EdgeId>): seq<CostVector>
    requires r.Valid() && ValidProblem(x) && ParasiteTop in x.parasite.edges
    requires forall e :: e in edges ==> e in x.host.edges
  {
    if edges == [] then []
    else TopCosts(r, x, edges[..|edges| - 1]) + OptimalCost(r, x, ParasiteTop, edges[|edges| - 1])
  }

  /** The specification of `reconcile`: the corrected frontier of the union
      of C(pTop, eh) over every host edge. */
  function Reconciled(r: CostRange, x: Problem): seq<CostVector>
    requires r.Valid() && ValidProblem(x) && ParasiteTop in x.parasite.edges && |x.host.order| > 0
  {
    TopCostsNonEmpty(r, x, x.host.order);
    Pareto(r, TopCosts(r, x, x.host.order))
  }

  lemma TopCostsNonEmpty(r: CostRange, x: Problem, edges: seq<EdgeId>)
    requires r.Valid() && ValidProblem(x) && ParasiteTop in x.parasite.edges
    requires forall e :: e in edges ==> e in x.host.edges
    requires |edges| > 0
    ensures |TopCosts(r, x, edges)| > 0
  {
  }
}
