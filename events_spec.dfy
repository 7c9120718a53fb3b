/** The dynamic program of the event-recording solver as pure functions.
    It has the shape of the plain one, but each `merge` adds the event
    vector to the left vector before the right one, and a switch merges the
    staying child's list with the landing list of each switch target in
    turn rather than with their concatenation. The candidate list of the
    solver is empty throughout, so no vector is rejected here; `merge` and
    `lossmerge` themselves are specified with any candidate list. As in the
    plain solver, each `paretoFilter` call is the corrected frontier
    `Pareto`. */
module EventsSpec {
  import opened CostVectors
  import opened Trees
  import opened Frontier
  import opened ReconcileSpec
  import opened Provenance

  /** What `merge` returns: unit + v + w for every v of the first list and
      w of the second, in row-major order, less the rejected ones. */
  function MergeOutput(candidates: seq<CostVector>, eventType: EventType,
                       list1: seq<CostVector>, list2: seq<CostVector>): seq<CostVector>
  {
    Survivors(candidates, Merged(Shift(EventUnit(eventType), list1), list2))
  }

  /** What `lossmerge` returns: one loss plus v for every v of the list,
      less the rejected ones. */
  function LossOutput(candidates: seq<CostVector>, list: seq<CostVector>): seq<CostVector>
  {
    Survivors(candidates, Shift(LossUnit, list))
  }

  /** The A table of the event-recording solver. */
  function EvAliveCost(r: CostRange, x: Problem, ep: EdgeId, eh: EdgeId): (out: seq<CostVector>)
    requires r.Valid() && ValidProblem(x) && ep in x.parasite.edges && eh in x.host.edges
    ensures |out| > 0
    decreases Rank(x.parasite)[ep], 1, Rank(x.host)[eh], 2
  {
    if TipEdge(x.host, eh) then
      if TipMatches(x, ep, eh) then [Zero] else [Infeasible]
    else
      ParetoNonEmpty(r, EvAliveCandidates(r, x, ep, eh));
      Pareto(r, EvAliveCandidates(r, x, ep, eh))
  }

  /** Cospeciation then the two losses, as A gathers them. */
  function EvAliveCandidates(r: CostRange, x: Problem, ep: EdgeId, eh: EdgeId): (out: seq<CostVector>)
    requires r.Valid() && ValidProblem(x) && ep in x.parasite.edges && eh in x.host.edges
    requires !TipEdge(x.host, eh)
    ensures |out| > 0
    decreases Rank(x.parasite)[ep], 1, Rank(x.host)[eh], 1
  {
    var hl, hr := Left(x.host, eh), Right(x.host, eh);
    EvCospeciationCosts(r, x, ep, eh)
    + Shift(LossUnit, EvOptimalCost(r, x, ep, hl)) + Shift(LossUnit, EvOptimalCost(r, x, ep, hr))
  }

  /** Infeasible for a parasite tip, otherwise the two pairings of the
      children merged as cospeciations. */
  function EvCospeciationCosts(r: CostRange, x: Problem, ep: EdgeId, eh: EdgeId): seq<CostVector>
    requires r.Valid() && ValidProblem(x) && ep in x.parasite.edges && eh in x.host.edges
    requires !TipEdge(x.host, eh)
    decreases Rank(x.parasite)[ep], 1, Rank(x.host)[eh], 0
  {
    if TipEdge(x.parasite, ep) then [Infeasible]
    else
      var hl, hr := Left(x.host, eh), Right(x.host, eh);
      var pl, pr := Left(x.parasite, ep), Right(x.parasite, ep);
      Merged(Shift(CospeciationUnit, EvOptimalCost(r, x, pl, hl)), EvOptimalCost(r, x, pr, hr))
      + Merged(Shift(CospeciationUnit, EvOptimalCost(r, x, pl, hr)), EvOptimalCost(r, x, pr, hl))
  }

  /** The C table of the event-recording solver. */
  function EvOptimalCost(r: CostRange, x: Problem, ep: EdgeId, eh: EdgeId): (out: seq<CostVector>)
    requires r.Valid() && ValidProblem(x) && ep in x.parasite.edges && eh in x.host.edges
    ensures |out| > 0
    decreases Rank(x.parasite)[ep], 1, Rank(x.host)[eh], 4
  {
    if TipEdge(x.parasite, ep) then EvAliveCost(r, x, ep, eh)
    else
      ParetoNonEmpty(r, EvOptimalCandidates(r, x, ep, eh));
      Pareto(r, EvOptimalCandidates(r, x, ep, eh))
  }

  /** Pass-through, duplication, then the switches. */
  function EvOptimalCandidates(r: CostRange, x: Problem, ep: EdgeId, eh: EdgeId): (out: seq<CostVector>)
    requires r.Valid() && ValidProblem(x) && ep in x.parasite.edges && eh in x.host.edges
    requires !TipEdge(x.parasite, ep)
    ensures |out| > 0
    decreases Rank(x.parasite)[ep], 1, Rank(x.host)[eh], 3
  {
    EvAliveCost(r, x, ep, eh) + EvDuplicationCosts(r, x, ep, eh) + EvSwitchCosts(r, x, ep, eh)
  }

  function EvDuplicationCosts(r: CostRange, x: Problem, ep: EdgeId, eh: EdgeId): seq<CostVector>
    requires r.Valid() && ValidProblem(x) && ep in x.parasite.edges && eh in x.host.edges
    requires !TipEdge(x.parasite, ep)
    decreases Rank(x.parasite)[ep], 1, Rank(x.host)[eh], 0
  {
    var pl, pr := Left(x.parasite, ep), Right(x.parasite, ep);
    Merged(Shift(DuplicationUnit, EvOptimalCost(r, x, pl, eh)), EvOptimalCost(r, x, pr, eh))
  }

  /** The left child stays and the right one switches, then the reverse. */
  function EvSwitchCosts(r: CostRange, x: Problem, ep: EdgeId, eh: EdgeId): seq<CostVector>
    requires r.Valid() && ValidProblem(x) && ep in x.parasite.edges && eh in x.host.edges
    requires !TipEdge(x.parasite, ep)
    decreases Rank(x.parasite)[ep], 1, Rank(x.host)[eh], 0
  {
    var pl, pr := Left(x.parasite, ep), Right(x.parasite, ep);
    SwitchMerges(EvOptimalCost(r, x, pl, eh), AllSwitches(r, x, pr, eh, x.host.order))
    + SwitchMerges(EvOptimalCost(r, x, pr, eh), AllSwitches(r, x, pl, eh, x.host.order))
  }

  /** One switch merge per landing pair, concatenated in order. */
  function SwitchMerges(left: seq<CostVector>, pairs: seq<(EdgeId, seq<CostVector>)>): seq<CostVector>
  {
    if pairs == [] then []
    else SwitchMerges(left, pairs[..|pairs| - 1]) + Merged(Shift(SwitchUnit, left), pairs[|pairs| - 1].1)
  }

  /** The specification of `allSwitches(ep, eh)` over the host edges
      `edges`: a (switch edge, C(ep, switch edge)) pair per switch target,
      in enumeration order. */
  function AllSwitches(r: CostRange, x: Problem, ep: EdgeId, eh: EdgeId, edges: seq<EdgeId>): seq<(EdgeId, seq<CostVector>)>
    requires r.Valid() && ValidProblem(x) && ep in x.parasite.edges && eh in x.host.edges
    requires forall e :: e in edges ==> e in x.host.edges
    decreases Rank(x.parasite)[ep], 2, |edges|, 0
  {
    if edges == [] then []
    else
      var e := edges[|edges| - 1];
      AllSwitches(r, x, ep, eh, edges[..|edges| - 1])
      + (if SwitchTarget(x.host, eh, e) then [(e, EvOptimalCost(r, x, ep, e))] else [])
  }

  /** C(pTop, e) for each host edge e of `edges`, concatenated in order. */
  function EvTopCosts(r: CostRange, x: Problem, edges: seq<EdgeId>): (out: seq<CostVector>)
    requires r.Valid() && ValidProblem(x) && ParasiteTop in x.parasite.edges
    requires forall e :: e in edges ==> e in x.host.edges
    ensures |edges| > 0 ==> |out| > 0
  {
    if edges == [] then []
    else EvTopCosts(r, x, edges[..|edges| - 1]) + EvOptimalCost(r, x, ParasiteTop, edges[|edges| - 1])
  }

  /** The specification of the event-recording `reconcile`. */
  function EvReconciled(r: CostRange, x: Problem): seq<CostVector>
    requires r.Valid() && ValidProblem(x) && ParasiteTop in x.parasite.edges && |x.host.order| > 0
  {
    Pareto(r, EvTopCosts(r, x, x.host.order))
  }

  // Properties

  /** With no candidates, `merge` returns one vector per pair, unit + v + w,
      which is the plain solver's unit + (v + w). */
  lemma {:induction false} MergeOutputWithoutCandidates(eventType: EventType, list1: seq<CostVector>, list2: seq<CostVector>)
    ensures MergeOutput([], eventType, list1, list2) == Shift(EventUnit(eventType), Merged(list1, list2))
    ensures |MergeOutput([], eventType, list1, list2)| == |list1| * |list2|
  {
    SurvivorsOfNone(Merged(Shift(EventUnit(eventType), list1), list2));
    MergedShifted(EventUnit(eventType), list1, list2);
    MergedAt(list1, list2);
  }

  /** Adding the event vector to the left operand first is the same as
      adding it to each pair sum. */
  lemma {:induction false} MergedShifted(unit: CostVector, list1: seq<CostVector>, list2: seq<CostVector>)
    ensures Merged(Shift(unit, list1), list2) == Shift(unit, Merged(list1, list2))
    decreases |list1|
  {
    if list1 != [] {
      var init, v := list1[..|list1| - 1], list1[|list1| - 1];
      var shifted := Shift(unit, list1);
      ShiftInit(unit, list1);
      assert Merged(shifted, list2) == Merged(Shift(unit, init), list2) + Shift(Add(unit, v), list2);
      MergedShifted(unit, init, list2);
      ShiftShift(unit, v, list2);
      ShiftAppend(unit, Merged(init, list2), Shift(v, list2));
    }
  }

  lemma ShiftInit(unit: CostVector, list: seq<CostVector>)
    requires |list| > 0
    ensures Shift(unit, list)[..|list| - 1] == Shift(unit, list[..|list| - 1])
    ensures Shift(unit, list)[|list| - 1] == Add(unit, list[|list| - 1])
  {
  }

  lemma ShiftShift(unit: CostVector, v: CostVector, list: seq<CostVector>)
    ensures Shift(Add(unit, v), list) == Shift(unit, Shift(v, list))
  {
    forall j | 0 <= j < |list|
      ensures Shift(Add(unit, v), list)[j] == Shift(unit, Shift(v, list))[j]
    {
      AddAssociative(unit, v, list[j]);
    }
  }

  lemma ShiftAppend(unit: CostVector, a: seq<CostVector>, b: seq<CostVector>)
    ensures Shift(unit, a + b) == Shift(unit, a) + Shift(unit, b)
  {
  }

  /** A vector of a `merge` or `lossmerge` output is dropped exactly when a
      candidate dominates it. */
  lemma MergeOutputMembers(candidates: seq<CostVector>, eventType: EventType,
                           list1: seq<CostVector>, list2: seq<CostVector>, v: CostVector)
    ensures v in MergeOutput(candidates, eventType, list1, list2)
        <==> v in Merged(Shift(EventUnit(eventType), list1), list2) && !Rejected(candidates, v)
  {
    SurvivorsMembers(candidates, Merged(Shift(EventUnit(eventType), list1), list2), v);
  }

  lemma LossOutputMembers(candidates: seq<CostVector>, list: seq<CostVector>, v: CostVector)
    ensures v in LossOutput(candidates, list) <==> v in Shift(LossUnit, list) && !Rejected(candidates, v)
  {
    SurvivorsMembers(candidates, Shift(LossUnit, list), v);
  }

  /** Every landing pair names a switch target among `edges`, with its C
      entry. */
  lemma {:induction false} AllSwitchesSound(r: CostRange, x: Problem, ep: EdgeId, eh: EdgeId, edges: seq<EdgeId>, k: nat)
    requires r.Valid() && ValidProblem(x) && ep in x.parasite.edges && eh in x.host.edges
    requires forall e :: e in edges ==> e in x.host.edges
    requires k < |AllSwitches(r, x, ep, eh, edges)|
    ensures var pair := AllSwitches(r, x, ep, eh, edges)[k];
      pair.0 in edges && SwitchTarget(x.host, eh, pair.0) && pair.1 == EvOptimalCost(r, x, ep, pair.0)
    decreases |edges|
  {
    var init, last := edges[..|edges| - 1], edges[|edges| - 1];
    var before := AllSwitches(r, x, ep, eh, init);
    var target := SwitchTarget(x.host, eh, last);
    assert AllSwitches(r, x, ep, eh, edges) == before + (if target then [(last, EvOptimalCost(r, x, ep, last))] else []);
    if k < |before| {
      AllSwitchesSound(r, x, ep, eh, init, k);
      assert AllSwitches(r, x, ep, eh, edges)[k] == before[k];
    } else {
      assert target && AllSwitches(r, x, ep, eh, edges)[k] == (last, EvOptimalCost(r, x, ep, last));
    }
  }

  /** Every switch target among `edges` has its landing pair. */
  lemma {:induction false} AllSwitchesComplete(r: CostRange, x: Problem, ep: EdgeId, eh: EdgeId, edges: seq<EdgeId>, e: EdgeId)
    requires r.Valid() && ValidProblem(x) && ep in x.parasite.edges && eh in x.host.edges
    requires forall e :: e in edges ==> e in x.host.edges
    requires e in edges && SwitchTarget(x.host, eh, e)
    ensures exists k :: 0 <= k < |AllSwitches(r, x, ep, eh, edges)| && AllSwitches(r, x, ep, eh, edges)[k].0 == e
    decreases |edges|
  {
    var init, last := edges[..|edges| - 1], edges[|edges| - 1];
    var before := AllSwitches(r, x, ep, eh, init);
    var tail := if SwitchTarget(x.host, eh, last) then [(last, EvOptimalCost(r, x, ep, last))] else [];
    assert AllSwitches(r, x, ep, eh, edges) == before + tail;
    if e != last {
      InPrefix(edges, e);
      AllSwitchesComplete(r, x, ep, eh, init, e);
    }
    FoundInAppend(before, tail, e);
  }

  /** A pair named e in either part of a concatenation is in the whole. */
  lemma FoundInAppend(before: seq<(EdgeId, seq<CostVector>)>, tail: seq<(EdgeId, seq<CostVector>)>, e: EdgeId)
    requires (exists k :: 0 <= k < |before| && before[k].0 == e) || (|tail| > 0 && tail[0].0 == e)
    ensures exists k :: 0 <= k < |before + tail| && (before + tail)[k].0 == e
  {
    if |tail| > 0 && tail[0].0 == e {
      assert (before + tail)[|before|] == tail[0];
    } else {
      var k :| 0 <= k < |before| && before[k].0 == e;
      assert (before + tail)[k] == before[k];
    }
  }

  /** The base cases agree with the plain solver: on a host tip A is the
      same singleton, and on a parasite tip C is A. */
  lemma TipCasesAgree(r: CostRange, x: Problem, ep: EdgeId, eh: EdgeId)
    requires r.Valid() && ValidProblem(x) && ep in x.parasite.edges && eh in x.host.edges
    ensures TipEdge(x.host, eh) ==> EvAliveCost(r, x, ep, eh) == AliveCost(r, x, ep, eh)
    ensures TipEdge(x.parasite, ep) ==> EvOptimalCost(r, x, ep, eh) == EvAliveCost(r, x, ep, eh)
  {
  }

  /** For a parasite tip the two solvers agree on every host edge: no
      cospeciation is possible, so A is the frontier of the infeasible
      vector and the losses into both children, and both solvers build
      those the same way from C = A one host level down. */
  lemma {:induction false} ParasiteTipAgree(r: CostRange, x: Problem, ep: EdgeId, eh: EdgeId)
    requires r.Valid() && ValidProblem(x) && ep in x.parasite.edges && eh in x.host.edges
    requires TipEdge(x.parasite, ep)
    ensures EvAliveCost(r, x, ep, eh) == AliveCost(r, x, ep, eh)
    ensures EvOptimalCost(r, x, ep, eh) == OptimalCost(r, x, ep, eh)
    decreases Rank(x.host)[eh]
  {
    if !TipEdge(x.host, eh) {
      var hl, hr := Left(x.host, eh), Right(x.host, eh);
      ParasiteTipAgree(r, x, ep, hl);
      ParasiteTipAgree(r, x, ep, hr);
      assert EvAliveCandidates(r, x, ep, eh) == AliveCandidates(r, x, ep, eh);
    }
  }

  // Agreement with the plain solver on every edge pair

  /** The landing lists of the pairs, concatenated in order. */
  function Landed(pairs: seq<(EdgeId, seq<CostVector>)>): seq<CostVector>
  {
    if pairs == [] then [] else Landed(pairs[..|pairs| - 1]) + pairs[|pairs| - 1].1
  }

  lemma LandedAppend(pairs: seq<(EdgeId, seq<CostVector>)>, pair: (EdgeId, seq<CostVector>))
    ensures Landed(pairs + [pair]) == Landed(pairs) + pair.1
  {
    assert (pairs + [pair])[..|pairs|] == pairs;
  }

  /** Adding the cospeciation vector to the left operands first gives the
      plain solver's cospeciation candidates. */
  lemma CospeciationPairs(a: seq<CostVector>, b: seq<CostVector>, c: seq<CostVector>, d: seq<CostVector>)
    ensures Merged(Shift(CospeciationUnit, a), b) + Merged(Shift(CospeciationUnit, c), d)
         == Shift(CospeciationUnit, Merged(a, b)) + Shift(CospeciationUnit, Merged(c, d))
  {
    MergedShifted(CospeciationUnit, a, b);
    MergedShifted(CospeciationUnit, c, d);
  }

  /** Merging with a concatenated right operand gives the two merges'
      vectors, in another order. */
  lemma {:induction false} MergedAppendRight(list: seq<CostVector>, a: seq<CostVector>, b: seq<CostVector>)
    ensures multiset(Merged(list, a + b)) == multiset(Merged(list, a)) + multiset(Merged(list, b))
    decreases |list|
  {
    if list != [] {
      var init, v := list[..|list| - 1], list[|list| - 1];
      MergedAppendRight(init, a, b);
      ShiftAppend(v, a, b);
      assert Merged(list, a + b) == Merged(init, a + b) + (Shift(v, a) + Shift(v, b));
      assert Merged(list, a) == Merged(init, a) + Shift(v, a);
      assert Merged(list, b) == Merged(init, b) + Shift(v, b);
    }
  }

  /** One switch merge per landing pair yields the vectors of a single
      merge with all the landing lists, in another order. */
  lemma {:induction false} SwitchMergesLanded(left: seq<CostVector>, pairs: seq<(EdgeId, seq<CostVector>)>)
    ensures multiset(SwitchMerges(left, pairs)) == multiset(Shift(SwitchUnit, Merged(left, Landed(pairs))))
    decreases |pairs|
  {
    var shifted := Shift(SwitchUnit, left);
    if pairs != [] {
      var init, last := pairs[..|pairs| - 1], pairs[|pairs| - 1].1;
      SwitchMergesLanded(left, init);
      MergedShifted(SwitchUnit, left, Landed(init));
      MergedAppendRight(shifted, Landed(init), last);
      assert SwitchMerges(left, pairs) == SwitchMerges(left, init) + Merged(shifted, last);
      assert Landed(pairs) == Landed(init) + last;
      calc {
        multiset(SwitchMerges(left, pairs));
        multiset(Merged(shifted, Landed(init))) + multiset(Merged(shifted, last));
        multiset(Merged(shifted, Landed(pairs)));
      }
    } else {
      MergedAt(left, []);
    }
    MergedShifted(SwitchUnit, left, Landed(pairs));
  }

  /** Where both solvers agree on C(ep, e) for the switch targets e, the
      landing lists of `allSwitches` concatenate to `switches`. */
  lemma {:induction false} LandedSwitches(r: CostRange, x: Problem, ep: EdgeId, eh: EdgeId, edges: seq<EdgeId>)
    requires r.Valid() && ValidProblem(x) && ep in x.parasite.edges && eh in x.host.edges
    requires forall e :: e in edges ==> e in x.host.edges
    requires forall e :: e in edges ==> EvOptimalCost(r, x, ep, e) == OptimalCost(r, x, ep, e)
    ensures Landed(AllSwitches(r, x, ep, eh, edges)) == Switches(r, x, ep, eh, edges)
    decreases |edges|
  {
    if edges != [] {
      var init, e := edges[..|edges| - 1], edges[|edges| - 1];
      LandedSwitches(r, x, ep, eh, init);
      var before := AllSwitches(r, x, ep, eh, init);
      assert e in edges;
      if SwitchTarget(x.host, eh, e) {
        assert AllSwitches(r, x, ep, eh, edges) == before + [(e, EvOptimalCost(r, x, ep, e))];
        assert Switches(r, x, ep, eh, edges) == Switches(r, x, ep, eh, init) + OptimalCost(r, x, ep, e);
        LandedAppend(before, (e, EvOptimalCost(r, x, ep, e)));
      } else {
        assert AllSwitches(r, x, ep, eh, edges) == before + [];
        assert Switches(r, x, ep, eh, edges) == Switches(r, x, ep, eh, init) + [];
        assert before + [] == before;
        assert Switches(r, x, ep, eh, init) + [] == Switches(r, x, ep, eh, init);
      }
    }
  }

  /** Cospeciation and losses: once C agrees below (ep, eh), A's candidate
      lists are the same sequence. */
  lemma AliveCandidatesAgree(r: CostRange, x: Problem, ep: EdgeId, eh: EdgeId)
    requires r.Valid() && ValidProblem(x) && ep in x.parasite.edges && eh in x.host.edges
    requires !TipEdge(x.parasite, ep) && !TipEdge(x.host, eh)
    requires var hl, hr := Left(x.host, eh), Right(x.host, eh);
      var pl, pr := Left(x.parasite, ep), Right(x.parasite, ep);
      && EvOptimalCost(r, x, pl, hl) == OptimalCost(r, x, pl, hl)
      && EvOptimalCost(r, x, pl, hr) == OptimalCost(r, x, pl, hr)
      && EvOptimalCost(r, x, pr, hl) == OptimalCost(r, x, pr, hl)
      && EvOptimalCost(r, x, pr, hr) == OptimalCost(r, x, pr, hr)
      && EvOptimalCost(r, x, ep, hl) == OptimalCost(r, x, ep, hl)
      && EvOptimalCost(r, x, ep, hr) == OptimalCost(r, x, ep, hr)
    ensures EvAliveCandidates(r, x, ep, eh) == AliveCandidates(r, x, ep, eh)
  {
    var hl, hr := Left(x.host, eh), Right(x.host, eh);
    var pl, pr := Left(x.parasite, ep), Right(x.parasite, ep);
    assert EvCospeciationCosts(r, x, ep, eh)
        == Merged(Shift(CospeciationUnit, EvOptimalCost(r, x, pl, hl)), EvOptimalCost(r, x, pr, hr))
         + Merged(Shift(CospeciationUnit, EvOptimalCost(r, x, pl, hr)), EvOptimalCost(r, x, pr, hl));
    assert CospeciationCosts(r, x, ep, eh)
        == Shift(CospeciationUnit, Merged(OptimalCost(r, x, pl, hl), OptimalCost(r, x, pr, hr)))
         + Shift(CospeciationUnit, Merged(OptimalCost(r, x, pl, hr), OptimalCost(r, x, pr, hl)));
    CospeciationPairs(OptimalCost(r, x, pl, hl), OptimalCost(r, x, pr, hr), OptimalCost(r, x, pl, hr), OptimalCost(r, x, pr, hl));
    var losses := Shift(LossUnit, OptimalCost(r, x, ep, hl));
    var losses' := Shift(LossUnit, OptimalCost(r, x, ep, hr));
    assert EvAliveCandidates(r, x, ep, eh) == EvCospeciationCosts(r, x, ep, eh) + losses + losses';
    assert LossCosts(r, x, ep, eh) == losses + losses';
    assert AliveCandidates(r, x, ep, eh) == CospeciationCosts(r, x, ep, eh) + LossCosts(r, x, ep, eh);
    ConcatAssociative(CospeciationCosts(r, x, ep, eh), losses, losses');
  }

  lemma ConcatAssociative(a: seq<CostVector>, b: seq<CostVector>, c: seq<CostVector>)
    ensures a + b + c == a + (b + c)
  {
  }

  /** Pass-through, duplication and switches: once A agrees at (ep, eh) and
      C agrees below ep, C's candidate lists hold the same vectors. */
  lemma OptimalCandidatesAgree(r: CostRange, x: Problem, ep: EdgeId, eh: EdgeId)
    requires r.Valid() && ValidProblem(x) && ep in x.parasite.edges && eh in x.host.edges
    requires !TipEdge(x.parasite, ep)
    requires forall p, h :: p in x.parasite.edges && h in x.host.edges && Rank(x.parasite)[p] < Rank(x.parasite)[ep]
               ==> EvOptimalCost(r, x, p, h) == OptimalCost(r, x, p, h)
    requires EvAliveCost(r, x, ep, eh) == AliveCost(r, x, ep, eh)
    ensures multiset(EvOptimalCandidates(r, x, ep, eh)) == multiset(OptimalCandidates(r, x, ep, eh))
  {
    var pl, pr := Left(x.parasite, ep), Right(x.parasite, ep);
    var order := x.host.order;
    MergedShifted(DuplicationUnit, OptimalCost(r, x, pl, eh), OptimalCost(r, x, pr, eh));
    assert EvDuplicationCosts(r, x, ep, eh) == DuplicationCosts(r, x, ep, eh);
    assert forall e :: e in order ==> e in x.host.edges;
    LandedSwitches(r, x, pr, eh, order);
    LandedSwitches(r, x, pl, eh, order);
    SwitchMergesLanded(OptimalCost(r, x, pl, eh), AllSwitches(r, x, pr, eh, order));
    SwitchMergesLanded(OptimalCost(r, x, pr, eh), AllSwitches(r, x, pl, eh, order));
    assert multiset(EvSwitchCosts(r, x, ep, eh)) == multiset(SwitchCosts(r, x, ep, eh));
  }

  /** The event-recording solver computes the plain solver's tables: A and C
      agree on every pair of edges, because each candidate list holds the
      same vectors and the frontier does not depend on their order. */
  lemma {:induction false} SolversAgree(r: CostRange, x: Problem, ep: EdgeId, eh: EdgeId)
    requires r.Valid() && ValidProblem(x) && ep in x.parasite.edges && eh in x.host.edges
    ensures EvAliveCost(r, x, ep, eh) == AliveCost(r, x, ep, eh)
    ensures EvOptimalCost(r, x, ep, eh) == OptimalCost(r, x, ep, eh)
    decreases Rank(x.parasite)[ep], Rank(x.host)[eh]
  {
    if TipEdge(x.parasite, ep) {
      ParasiteTipAgree(r, x, ep, eh);
    } else {
      forall p, h | p in x.parasite.edges && h in x.host.edges && Rank(x.parasite)[p] < Rank(x.parasite)[ep]
        ensures EvOptimalCost(r, x, p, h) == OptimalCost(r, x, p, h)
      {
        SolversAgree(r, x, p, h);
      }
      if !TipEdge(x.host, eh) {
        SolversAgree(r, x, ep, Left(x.host, eh));
        SolversAgree(r, x, ep, Right(x.host, eh));
        AliveCandidatesAgree(r, x, ep, eh);
      }
      OptimalCandidatesAgree(r, x, ep, eh);
      ParetoPermutation(r, EvOptimalCandidates(r, x, ep, eh), OptimalCandidates(r, x, ep, eh));
    }
  }

  /** C(pTop, e) agrees on every host edge, so both solvers' concatenations
      at the top are the same. */
  lemma {:induction false} TopCostsAgree(r: CostRange, x: Problem, edges: seq<EdgeId>)
    requires r.Valid() && ValidProblem(x) && ParasiteTop in x.parasite.edges
    requires forall e :: e in edges ==> e in x.host.edges
    ensures EvTopCosts(r, x, edges) == TopCosts(r, x, edges)
    decreases |edges|
  {
    if edges != [] {
      TopCostsAgree(r, x, edges[..|edges| - 1]);
      SolversAgree(r, x, ParasiteTop, edges[|edges| - 1]);
    }
  }

  /** Both `reconcile` functions return the same frontier. */
  lemma ReconciledAgree(r: CostRange, x: Problem)
    requires r.Valid() && ValidProblem(x) && ParasiteTop in x.parasite.edges && |x.host.order| > 0
    ensures EvReconciled(r, x) == Reconciled(r, x)
  {
    TopCostsAgree(r, x, x.host.order);
  }
}
