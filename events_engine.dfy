/** The event-recording solver: the memoized solver with `merge` and
    `lossmerge` that reject vectors a candidate list dominates and record,
    for every kept vector, the events it was built from. Its inherited part
    (the cost range, the host index and `ancestorsAndDescendants`) is a
    plain solver object it owns; its own tables, event records, candidate
    list and configuration are fields of its own. The run-wide `CVseen` and
    `CVcommonEvents` maps are fields too. */
module EventsEngine {
  import opened CostVectors
  import opened Trees
  import opened Frontier
  import opened ReconcileSpec
  import opened MemoTables
  import opened Provenance
  import opened EventsSpec
  import opened EventTables
  import opened ReconcileEngine

  class ReconcileAlgorithmWithRecordedEvents {
    /** The inherited part: cost range, host index and the methods on them. */
    const base: ReconcileAlgorithm

    /** Union (false) or intersection (true) mode. */
    const intersection: bool

    /** Vectors that reject any new vector they strictly dominate. */
    var CandidateCVlist: seq<CostVector>

    var Amemo: Table
    var Cmemo: Table
    var Bestmemo: PairTable

    /** The event records. */
    var CVevents: map<Event, set<Event>>
    var CVallEvents: map<Solution, set<Event>>
    var CVseen: set<Cost>
    var CVcommonEvents: map<Cost, set<Event>>

    function Records(): Record
      reads `CVevents, `CVallEvents, `CVseen, `CVcommonEvents
    {
      Record(CVevents, CVallEvents, CVseen, CVcommonEvents)
    }

    /** What every step of the recursion relies on. */
    ghost predicate Ready(x: Problem)
      reads this, base
    {
      EvConsistent(base.r, x, CandidateCVlist, Amemo, Cmemo, Bestmemo, base.Ancestors, base.Descendants, Records())
    }

    /** The tables and the event records, as one value. */
    function Now(): Snapshot
      reads `Amemo, `Cmemo, `Bestmemo, `CVevents, `CVallEvents, `CVseen, `CVcommonEvents
    {
      Snapshot(Amemo, Cmemo, Bestmemo, Records())
    }

    /** What `reconcile` needs before it indexes the host tree: tables that
        agree with this problem (as empty ones do), no candidates and well
        formed records. */
    ghost predicate Prepared(x: Problem)
      requires base.r.Valid() && ValidProblem(x)
      reads this
    {
      && CandidateCVlist == []
      && EvAliveTable(base.r, x, Amemo) && EvOptimalTable(base.r, x, Cmemo) && EvSwitchTable(base.r, x, Bestmemo)
      && WellFormed(Records())
    }

    constructor (r: CostRange, intersection: bool)
      ensures fresh(base) && base.r == r && this.intersection == intersection
      ensures base.Ancestors == map[] && base.Descendants == map[]
      ensures CandidateCVlist == [] && Amemo == map[] && Cmemo == map[] && Bestmemo == map[]
      ensures Records() == EmptyRecord
    {
      base := new ReconcileAlgorithm(r);
      this.intersection := intersection;
      CandidateCVlist := [];
      Amemo, Cmemo, Bestmemo := map[], map[], map[];
      CVevents, CVallEvents, CVseen, CVcommonEvents := map[], map[], {}, map[];
    }

    /** `reconcile`: index the host tree, then the frontier of C(pTop, eh)
        over every host edge in enumeration order. */
    method Reconcile(x: Problem) returns (solutions: seq<CostVector>)
      requires base.r.Valid() && ValidProblem(x) && ParasiteTop in x.parasite.edges && |x.host.order| > 0
      requires Prepared(x)
      modifies `Amemo, `Cmemo, `Bestmemo, `CVevents, `CVallEvents, `CVseen, `CVcommonEvents
      modifies base`Ancestors, base`Descendants
      ensures solutions == EvReconciled(base.r, x)
      ensures Ready(x)
    {
      base.AncestorsAndDescendants(x.host);
      solutions := SolveIndexed(x);
    }

    method SolveIndexed(x: Problem) returns (solutions: seq<CostVector>)
      requires Ready(x) && ParasiteTop in x.parasite.edges && |x.host.order| > 0
      modifies `Amemo, `Cmemo, `Bestmemo, `CVevents, `CVallEvents, `CVseen, `CVcommonEvents
      ensures solutions == EvReconciled(base.r, x)
      ensures Ready(x)
    {
      var all := [];
      for i := 0 to |x.host.order|
        invariant EvTopUpTo(base.r, x, i, all)
        invariant Ready(x)
      {
        all := TopSolution(x, i, all);
      }
      EvTopComplete(base.r, x, all);
      solutions := ParetoFilter(base.r, all);
    }

    method TopSolution(x: Problem, i: nat, sofar: seq<CostVector>) returns (all: seq<CostVector>)
      requires Ready(x) && ParasiteTop in x.parasite.edges && i < |x.host.order|
      requires EvTopUpTo(base.r, x, i, sofar)
      modifies `Amemo, `Cmemo, `Bestmemo, `CVevents, `CVallEvents, `CVseen, `CVcommonEvents
      ensures EvTopUpTo(base.r, x, i + 1, all)
      ensures Ready(x)
    {
      EvTopCostsStep(base.r, x, i);
      var c := OptimalEdgeCost(x, ParasiteTop, x.host.order[i]);
      all := sofar + c;
    }

    /** The A table: a stored entry is returned as is; the host-tip base
        cases are returned without being stored; an internal host edge is
        computed and stored. */
    method A(x: Problem, ep: EdgeId, eh: EdgeId) returns (output: seq<CostVector>)
      requires Ready(x) && ep in x.parasite.edges && eh in x.host.edges
      modifies `Amemo, `Cmemo, `Bestmemo, `CVevents, `CVallEvents, `CVseen, `CVcommonEvents
      ensures output == EvAliveCost(base.r, x, ep, eh)
      ensures Ready(x) && Within(old(Now()), Now(), intersection)
      ensures (ep, eh) in Amemo <==> !TipEdge(x.host, eh)
      decreases Rank(x.parasite)[ep], 1, Rank(x.host)[eh], 2
    {
      if (ep, eh) in Amemo {
        EvAliveLookup(base.r, x, CandidateCVlist, Amemo, Cmemo, Bestmemo, base.Ancestors, base.Descendants, Records(), ep, eh);
        WithinReflexive(Now(), intersection);
        return Amemo[(ep, eh)];
      }
      if TipEdge(x.host, eh) {
        WithinReflexive(Now(), intersection);
        if TipEdge(x.parasite, ep) && x.phi[EndVertex(x.parasite, ep)] == EndVertex(x.host, eh) {
          return [CostVector(Finite(0, 0, 0, 0), 1)];
        } else {
          return [CostVector(Infinite, 0)];
        }
      }
      output := AliveChoices(x, ep, eh);
      ghost var s := Now();
      StoreAlive(x, ep, eh, output);
      WithinTransitive(old(Now()), s, Now(), intersection);
    }

    /** The frontier of cospeciation and both losses on an internal host
        edge. */
    method AliveChoices(x: Problem, ep: EdgeId, eh: EdgeId) returns (output: seq<CostVector>)
      requires Ready(x) && ep in x.parasite.edges && eh in x.host.edges
      requires !TipEdge(x.host, eh)
      modifies `Amemo, `Cmemo, `Bestmemo, `CVevents, `CVallEvents, `CVseen, `CVcommonEvents
      ensures output == EvAliveCost(base.r, x, ep, eh)
      ensures Ready(x) && Within(old(Now()), Now(), intersection)
      decreases Rank(x.parasite)[ep], 1, Rank(x.host)[eh], 1
    {
      var cospeciation := Cospeciation(x, ep, eh);
      var hl, hr := Left(x.host, eh), Right(x.host, eh);
      ghost var s := Now();
      var loss1 := Loss(x, ep, eh, hl);
      WithinTransitive(old(Now()), s, Now(), intersection);
      s := Now();
      var loss2 := Loss(x, ep, eh, hr);
      WithinTransitive(old(Now()), s, Now(), intersection);
      assert EvAliveCandidates(base.r, x, ep, eh) == cospeciation + loss1 + loss2;
      output := ParetoFilter(base.r, cospeciation + loss1 + loss2);
    }

    /** A loss on eh towards its child ehChild. */
    method Loss(x: Problem, ep: EdgeId, eh: EdgeId, ehChild: EdgeId) returns (loss: seq<CostVector>)
      requires Ready(x) && ep in x.parasite.edges && eh in x.host.edges
      requires !TipEdge(x.host, eh) && (ehChild == Left(x.host, eh) || ehChild == Right(x.host, eh))
      modifies `Amemo, `Cmemo, `Bestmemo, `CVevents, `CVallEvents, `CVseen, `CVcommonEvents
      ensures loss == Shift(LossUnit, EvOptimalCost(base.r, x, ep, ehChild))
      ensures Ready(x) && Within(old(Now()), Now(), intersection)
      decreases Rank(x.parasite)[ep], 1, Rank(x.host)[eh], 0
    {
      var down := OptimalEdgeCost(x, ep, ehChild);
      ghost var s := Now();
      loss := LossMergeReady(x, ep, eh, ehChild, down);
      WithinTransitive(old(Now()), s, Now(), intersection);
    }

    method StoreAlive(x: Problem, ep: EdgeId, eh: EdgeId, output: seq<CostVector>)
      requires Ready(x) && ep in x.parasite.edges && eh in x.host.edges
      requires !TipEdge(x.host, eh) && output == EvAliveCost(base.r, x, ep, eh)
      modifies `Amemo
      ensures Amemo == old(Amemo)[(ep, eh) := output]
      ensures Ready(x) && Within(old(Now()), Now(), intersection)
    {
      EvAliveStored(base.r, x, CandidateCVlist, Amemo, Cmemo, Bestmemo, base.Ancestors, base.Descendants, Records(), ep, eh, output);
      PutAmemo(ep, eh, output);
    }

    /** The cospeciation candidates on an internal host edge: infeasible for
        a parasite tip, otherwise both pairings of the children. */
    method Cospeciation(x: Problem, ep: EdgeId, eh: EdgeId) returns (cospeciation: seq<CostVector>)
      requires Ready(x) && ep in x.parasite.edges && eh in x.host.edges
      requires !TipEdge(x.host, eh)
      modifies `Amemo, `Cmemo, `Bestmemo, `CVevents, `CVallEvents, `CVseen, `CVcommonEvents
      ensures cospeciation == EvCospeciationCosts(base.r, x, ep, eh)
      ensures Ready(x) && Within(old(Now()), Now(), intersection)
      decreases Rank(x.parasite)[ep], 1, Rank(x.host)[eh], 0
    {
      if TipEdge(x.parasite, ep) {
        WithinReflexive(Now(), intersection);
        return [CostVector(Infinite, 0)];
      }
      var hl, hr := Left(x.host, eh), Right(x.host, eh);
      var cospeciation1 := ChildMerge(x, ep, eh, hl, hr, CospeciationEvent);
      ghost var s := Now();
      var cospeciation2 := ChildMerge(x, ep, eh, hr, hl, CospeciationEvent);
      WithinTransitive(old(Now()), s, Now(), intersection);
      cospeciation := cospeciation1 + cospeciation2;
    }

    /** The left parasite child on h1 merged with the right one on h2, as
        one event of `eventType`: a cospeciation pairing, or a duplication
        with h1 == h2 == eh. */
    method ChildMerge(x: Problem, ep: EdgeId, eh: EdgeId, h1: EdgeId, h2: EdgeId, eventType: EventType)
      returns (merged: seq<CostVector>)
      requires Ready(x) && ep in x.parasite.edges && eh in x.host.edges
      requires !TipEdge(x.parasite, ep)
      requires h1 in x.host.edges && h2 in x.host.edges
      modifies `Amemo, `Cmemo, `Bestmemo, `CVevents, `CVallEvents, `CVseen, `CVcommonEvents
      ensures merged == Merged(Shift(EventUnit(eventType), EvOptimalCost(base.r, x, Left(x.parasite, ep), h1)),
                               EvOptimalCost(base.r, x, Right(x.parasite, ep), h2))
      ensures Ready(x) && Within(old(Now()), Now(), intersection)
      decreases Rank(x.parasite)[ep], 0, 0, 0
    {
      var pl, pr := Left(x.parasite, ep), Right(x.parasite, ep);
      var first := OptimalEdgeCost(x, pl, h1);
      ghost var s := Now();
      var second := OptimalEdgeCost(x, pr, h2);
      WithinTransitive(old(Now()), s, Now(), intersection);
      s := Now();
      merged := MergeReady(x, first, second, ep, eh, pl, h1, pr, h2, eventType);
      WithinTransitive(old(Now()), s, Now(), intersection);
    }

    /** The C table: a stored entry is returned as is; a parasite tip gets
        the A entry without storing it; an internal parasite edge is
        computed and stored. */
    method OptimalEdgeCost(x: Problem, ep: EdgeId, eh: EdgeId) returns (output: seq<CostVector>)
      requires Ready(x) && ep in x.parasite.edges && eh in x.host.edges
      modifies `Amemo, `Cmemo, `Bestmemo, `CVevents, `CVallEvents, `CVseen, `CVcommonEvents
      ensures output == EvOptimalCost(base.r, x, ep, eh)
      ensures Ready(x) && Within(old(Now()), Now(), intersection)
      ensures (ep, eh) in Cmemo <==> !TipEdge(x.parasite, ep)
      decreases Rank(x.parasite)[ep], 1, Rank(x.host)[eh], 4
    {
      if (ep, eh) in Cmemo {
        EvOptimalLookup(base.r, x, CandidateCVlist, Amemo, Cmemo, Bestmemo, base.Ancestors, base.Descendants, Records(), ep, eh);
        WithinReflexive(Now(), intersection);
        return Cmemo[(ep, eh)];
      }
      var passThrough := A(x, ep, eh);
      if TipEdge(x.parasite, ep) {
        return passThrough;
      }
      ghost var s := Now();
      output := OptimalChoices(x, ep, eh, passThrough);
      WithinTransitive(old(Now()), s, Now(), intersection);
      s := Now();
      StoreOptimal(x, ep, eh, output);
      WithinTransitive(old(Now()), s, Now(), intersection);
    }

    /** The frontier of pass-through, duplication and the switches in both
        directions for an internal parasite edge. */
    method OptimalChoices(x: Problem, ep: EdgeId, eh: EdgeId, passThrough: seq<CostVector>)
      returns (output: seq<CostVector>)
      requires Ready(x) && ep in x.parasite.edges && eh in x.host.edges
      requires !TipEdge(x.parasite, ep) && passThrough == EvAliveCost(base.r, x, ep, eh)
      modifies `Amemo, `Cmemo, `Bestmemo, `CVevents, `CVallEvents, `CVseen, `CVcommonEvents
      ensures output == EvOptimalCost(base.r, x, ep, eh)
      ensures Ready(x) && Within(old(Now()), Now(), intersection)
      decreases Rank(x.parasite)[ep], 1, Rank(x.host)[eh], 3
    {
      var pl, pr := Left(x.parasite, ep), Right(x.parasite, ep);
      var duplicate := Duplicate(x, ep, eh);
      ghost var s := Now();
      var switch1 := SwitchOneWay(x, ep, eh, pl, pr);
      WithinTransitive(old(Now()), s, Now(), intersection);
      s := Now();
      var switch2 := SwitchOneWay(x, ep, eh, pr, pl);
      WithinTransitive(old(Now()), s, Now(), intersection);
      var switch := switch1 + switch2;
      assert EvOptimalCandidates(base.r, x, ep, eh) == passThrough + duplicate + switch;
      output := ParetoFilter(base.r, passThrough + duplicate + switch);
    }

    method StoreOptimal(x: Problem, ep: EdgeId, eh: EdgeId, output: seq<CostVector>)
      requires Ready(x) && ep in x.parasite.edges && eh in x.host.edges
      requires !TipEdge(x.parasite, ep) && output == EvOptimalCost(base.r, x, ep, eh)
      modifies `Cmemo
      ensures Cmemo == old(Cmemo)[(ep, eh) := output]
      ensures Ready(x) && Within(old(Now()), Now(), intersection)
    {
      EvOptimalStored(base.r, x, CandidateCVlist, Amemo, Cmemo, Bestmemo, base.Ancestors, base.Descendants, Records(), ep, eh, output);
      PutCmemo(ep, eh, output);
    }

    /** Duplication on eh: both children of ep start on eh. */
    method Duplicate(x: Problem, ep: EdgeId, eh: EdgeId) returns (duplicate: seq<CostVector>)
      requires Ready(x) && ep in x.parasite.edges && eh in x.host.edges
      requires !TipEdge(x.parasite, ep)
      modifies `Amemo, `Cmemo, `Bestmemo, `CVevents, `CVallEvents, `CVseen, `CVcommonEvents
      ensures duplicate == EvDuplicationCosts(base.r, x, ep, eh)
      ensures Ready(x) && Within(old(Now()), Now(), intersection)
      decreases Rank(x.parasite)[ep], 1, Rank(x.host)[eh], 0
    {
      duplicate := ChildMerge(x, ep, eh, eh, eh, DuplicationEvent);
    }

    /** A switch on eh: the child `stay` starts on eh, and for each landing
        pair of the child `leave` the two lists are merged as a switch. */
    method SwitchOneWay(x: Problem, ep: EdgeId, eh: EdgeId, stay: EdgeId, leave: EdgeId) returns (switch: seq<CostVector>)
      requires Ready(x) && ep in x.parasite.edges && eh in x.host.edges && !TipEdge(x.parasite, ep)
      requires (stay == Left(x.parasite, ep) && leave == Right(x.parasite, ep))
            || (stay == Right(x.parasite, ep) && leave == Left(x.parasite, ep))
      modifies `Amemo, `Cmemo, `Bestmemo, `CVevents, `CVallEvents, `CVseen, `CVcommonEvents
      ensures switch == SwitchMerges(EvOptimalCost(base.r, x, stay, eh), AllSwitches(base.r, x, leave, eh, x.host.order))
      ensures Ready(x) && Within(old(Now()), Now(), intersection)
      decreases Rank(x.parasite)[ep], 1, Rank(x.host)[eh], 0
    {
      var leftCVlist := OptimalEdgeCost(x, stay, eh);
      ghost var s := Now();
      var rightPairs := AllSwitchesOf(x, leave, eh);
      WithinTransitive(old(Now()), s, Now(), intersection);
      switch := [];
      for i := 0 to |rightPairs|
        invariant switch == SwitchMerges(leftCVlist, rightPairs[..i])
        invariant Ready(x) && Within(old(Now()), Now(), intersection)
      {
        s := Now();
        switch := SwitchMerge(x, ep, eh, stay, leave, leftCVlist, rightPairs, i, switch);
        WithinTransitive(old(Now()), s, Now(), intersection);
      }
      SwitchMergesComplete(leftCVlist, rightPairs);
    }

    /** One landing pair of a switch. */
    method SwitchMerge(x: Problem, ep: EdgeId, eh: EdgeId, stay: EdgeId, leave: EdgeId, leftCVlist: seq<CostVector>,
                       rightPairs: seq<(EdgeId, seq<CostVector>)>, i: nat, sofar: seq<CostVector>) returns (switch: seq<CostVector>)
      requires Ready(x) && i < |rightPairs| && sofar == SwitchMerges(leftCVlist, rightPairs[..i])
      modifies `CVevents, `CVallEvents, `CVseen, `CVcommonEvents
      ensures switch == SwitchMerges(leftCVlist, rightPairs[..i + 1])
      ensures Ready(x) && Within(old(Now()), Now(), intersection)
    {
      var (switchEdge, rightCVlist) := rightPairs[i];
      var merged := MergeReady(x, leftCVlist, rightCVlist, ep, eh, stay, eh, leave, switchEdge, SwitchEvent);
      SwitchMergesStep(leftCVlist, rightPairs, i);
      switch := sofar + merged;
    }

    /** `allSwitches`: a stored entry is returned as is; otherwise the
        landing pairs are collected and stored in the Best table. */
    method AllSwitchesOf(x: Problem, ep: EdgeId, eh: EdgeId) returns (output: seq<(EdgeId, seq<CostVector>)>)
      requires Ready(x) && ep in x.parasite.edges && eh in x.host.edges
      modifies `Amemo, `Cmemo, `Bestmemo, `CVevents, `CVallEvents, `CVseen, `CVcommonEvents
      ensures output == AllSwitches(base.r, x, ep, eh, x.host.order)
      ensures Ready(x) && Within(old(Now()), Now(), intersection)
      ensures (ep, eh) in Bestmemo
      decreases Rank(x.parasite)[ep], 4, 0, 0
    {
      if (ep, eh) in Bestmemo {
        EvSwitchLookup(base.r, x, CandidateCVlist, Amemo, Cmemo, Bestmemo, base.Ancestors, base.Descendants, Records(), ep, eh);
        WithinReflexive(Now(), intersection);
        return Bestmemo[(ep, eh)];
      }
      output := LandingPairs(x, ep, eh);
      ghost var s := Now();
      StoreSwitches(x, ep, eh, output);
      WithinTransitive(old(Now()), s, Now(), intersection);
    }

    /** The loop of `allSwitches`: (e, C(ep, e)) for every host edge e
        outside Ancestors[eh] and Descendants[eh], in enumeration order. */
    method LandingPairs(x: Problem, ep: EdgeId, eh: EdgeId) returns (output: seq<(EdgeId, seq<CostVector>)>)
      requires Ready(x) && ep in x.parasite.edges && eh in x.host.edges
      modifies `Amemo, `Cmemo, `Bestmemo, `CVevents, `CVallEvents, `CVseen, `CVcommonEvents
      ensures output == AllSwitches(base.r, x, ep, eh, x.host.order)
      ensures Ready(x) && Within(old(Now()), Now(), intersection)
      decreases Rank(x.parasite)[ep], 3, 1, 0
    {
      WithinReflexive(Now(), intersection);
      output := [];
      for i := 0 to |x.host.order|
        invariant PairsUpTo(base.r, x, ep, eh, i, output)
        invariant Ready(x) && Within(old(Now()), Now(), intersection)
      {
        ghost var s := Now();
        output := LandingPair(x, ep, eh, i, output);
        WithinTransitive(old(Now()), s, Now(), intersection);
      }
      PairsComplete(base.r, x, ep, eh, output);
    }

    /** One step of the `allSwitches` loop: host edge i is paired with its C
        entry when it is neither an ancestor nor a descendant of eh. */
    method LandingPair(x: Problem, ep: EdgeId, eh: EdgeId, i: nat, sofar: seq<(EdgeId, seq<CostVector>)>)
      returns (output: seq<(EdgeId, seq<CostVector>)>)
      requires Ready(x) && ep in x.parasite.edges && eh in x.host.edges && i < |x.host.order|
      requires PairsUpTo(base.r, x, ep, eh, i, sofar)
      modifies `Amemo, `Cmemo, `Bestmemo, `CVevents, `CVallEvents, `CVseen, `CVcommonEvents
      ensures PairsUpTo(base.r, x, ep, eh, i + 1, output)
      ensures Ready(x) && Within(old(Now()), Now(), intersection)
      decreases Rank(x.parasite)[ep], 3, 0, 0
    {
      var switchEdge := x.host.order[i];
      AllSwitchesStep(base.r, x, ep, eh, i);
      IndexedLanding(x.host, base.Ancestors, base.Descendants, eh, switchEdge);
      output := sofar;
      if switchEdge !in base.Ancestors[eh] && switchEdge !in base.Descendants[eh] {
        var c := OptimalEdgeCost(x, ep, switchEdge);
        output := output + [(switchEdge, c)];
      } else {
        WithinReflexive(Now(), intersection);
      }
    }

    method StoreSwitches(x: Problem, ep: EdgeId, eh: EdgeId, output: seq<(EdgeId, seq<CostVector>)>)
      requires Ready(x) && ep in x.parasite.edges && eh in x.host.edges
      requires output == AllSwitches(base.r, x, ep, eh, x.host.order)
      modifies `Bestmemo
      ensures Bestmemo == old(Bestmemo)[(ep, eh) := output]
      ensures Ready(x) && Within(old(Now()), Now(), intersection)
    {
      EvSwitchStored(base.r, x, CandidateCVlist, Amemo, Cmemo, Bestmemo, base.Ancestors, base.Descendants, Records(), ep, eh, output);
      PutBestmemo(ep, eh, output);
    }

    /** The dictionary assignments themselves: one key of one table set,
        every other entry of every table and the records kept. */
    method PutAmemo(ep: EdgeId, eh: EdgeId, output: seq<CostVector>)
      modifies `Amemo
      ensures Amemo == old(Amemo)[(ep, eh) := output]
      ensures Within(old(Now()), Now(), intersection)
    {
      Amemo := Amemo[(ep, eh) := output];
    }

    method PutCmemo(ep: EdgeId, eh: EdgeId, output: seq<CostVector>)
      modifies `Cmemo
      ensures Cmemo == old(Cmemo)[(ep, eh) := output]
      ensures Within(old(Now()), Now(), intersection)
    {
      Cmemo := Cmemo[(ep, eh) := output];
    }

    method PutBestmemo(ep: EdgeId, eh: EdgeId, output: seq<(EdgeId, seq<CostVector>)>)
      modifies `Bestmemo
      ensures Bestmemo == old(Bestmemo)[(ep, eh) := output]
      ensures Within(old(Now()), Now(), intersection)
    {
      Bestmemo := Bestmemo[(ep, eh) := output];
    }

    /** `merge` inside the recursion, where the candidate list is empty. */
    method MergeReady(x: Problem, CVlist1: seq<CostVector>, CVlist2: seq<CostVector>, ep: EdgeId, eh: EdgeId,
                      epChild1: EdgeId, ehChild1: EdgeId, epChild2: EdgeId, ehChild2: EdgeId, eventType: EventType)
      returns (output: seq<CostVector>)
      requires Ready(x)
      modifies `CVevents, `CVallEvents, `CVseen, `CVcommonEvents
      ensures output == Merged(Shift(EventUnit(eventType), CVlist1), CVlist2)
      ensures Ready(x) && Within(old(Now()), Now(), intersection)
    {
      output := Merge(CVlist1, CVlist2, ep, eh, epChild1, ehChild1, epChild2, ehChild2, eventType);
      SurvivorsOfNone(Merged(Shift(EventUnit(eventType), CVlist1), CVlist2));
    }

    /** `lossmerge` inside the recursion, where the candidate list is empty. */
    method LossMergeReady(x: Problem, ep: EdgeId, eh: EdgeId, ehChild: EdgeId, CVlist: seq<CostVector>)
      returns (output: seq<CostVector>)
      requires Ready(x)
      modifies `CVevents, `CVallEvents, `CVseen, `CVcommonEvents
      ensures output == Shift(LossUnit, CVlist)
      ensures Ready(x) && Within(old(Now()), Now(), intersection)
    {
      output := LossMerge(ep, eh, ehChild, CVlist);
      SurvivorsOfNone(Shift(LossUnit, CVlist));
    }

    /** `merge`: unit + v + w for every pair in row-major order, each kept
        only when no candidate dominates it and then recorded. */
    method Merge(CVlist1: seq<CostVector>, CVlist2: seq<CostVector>, ep: EdgeId, eh: EdgeId,
                 epChild1: EdgeId, ehChild1: EdgeId, epChild2: EdgeId, ehChild2: EdgeId, eventType: EventType)
      returns (output: seq<CostVector>)
      modifies `CVevents, `CVallEvents, `CVseen, `CVcommonEvents
      ensures output == MergeOutput(CandidateCVlist, eventType, CVlist1, CVlist2)
      ensures Records() == MergeRecorded(old(Records()), intersection, CandidateCVlist,
                                         MergeSite(ep, eh, epChild1, ehChild1, epChild2, ehChild2), eventType, CVlist1, CVlist2)
      ensures WellFormed(old(Records())) ==> WellFormed(Records())
      ensures Grew(old(Records()), Records(), intersection)
    {
      var site := MergeSite(ep, eh, epChild1, ehChild1, epChild2, ehChild2);
      ghost var start := Records();
      var current := eventType;
      output := [];
      for i := 0 to |CVlist1|
        invariant output == MergeOutput(CandidateCVlist, eventType, CVlist1[..i], CVlist2)
        invariant Records() == MergeRecorded(start, intersection, CandidateCVlist, site, eventType, CVlist1[..i], CVlist2)
        invariant current == eventType || current == Relabelled(eventType, ehChild2)
      {
        MergeStep(start, intersection, CandidateCVlist, site, eventType, CVlist1, CVlist2, i);
        var row;
        row, current := MergeRow(CVlist1[i], CVlist2, site, eventType, current);
        output := output + row;
      }
      assert CVlist1[..|CVlist1|] == CVlist1;
      MergeRecordedExtends(start, intersection, CandidateCVlist, site, eventType, CVlist1, CVlist2);
    }

    /** The inner loop of `merge` for one v. `current` is the event name as
        the loop has left it: the switch name is replaced by "switch to
        ehChild2" at the first kept vector, which changes neither the vector
        added nor the name recorded. */
    method MergeRow(v: CostVector, CVlist2: seq<CostVector>, site: MergeSite, eventType: EventType, current: EventType)
      returns (row: seq<CostVector>, next: EventType)
      requires current == eventType || current == Relabelled(eventType, site.ehChild2)
      modifies `CVevents, `CVallEvents, `CVseen, `CVcommonEvents
      ensures row == Survivors(CandidateCVlist, Shift(Add(EventUnit(eventType), v), CVlist2))
      ensures Records() == RowRecorded(old(Records()), intersection, CandidateCVlist, site, eventType, v, CVlist2)
      ensures next == eventType || next == Relabelled(eventType, site.ehChild2)
    {
      ghost var start := Records();
      next := current;
      row := [];
      for j := 0 to |CVlist2|
        invariant row == Survivors(CandidateCVlist, Shift(Add(EventUnit(eventType), v), CVlist2[..j]))
        invariant Records() == RowRecorded(start, intersection, CandidateCVlist, site, eventType, v, CVlist2[..j])
        invariant next == eventType || next == Relabelled(eventType, site.ehChild2)
      {
        var w := CVlist2[j];
        RowStep(start, intersection, CandidateCVlist, site, eventType, v, CVlist2, j);
        var newCV;
        if next == CospeciationEvent {
          newCV := Add(Add(CostVector(Finite(1, 0, 0, 0), 1), v), w);
        } else if next == DuplicationEvent {
          newCV := Add(Add(CostVector(Finite(0, 1, 0, 0), 1), v), w);
        } else {
          newCV := Add(Add(CostVector(Finite(0, 0, 1, 0), 1), v), w);
        }
        var keepnewCV := KeepNew(newCV);
        if keepnewCV {
          row := row + [newCV];
          if next == SwitchEvent {
            next := SwitchTo(site.ehChild2);
          }
          var nswe := Event(site.ep, site.eh, next, newCV.cost);
          RecordEvent(nswe, [Solution(site.epChild1, site.ehChild1, v.cost), Solution(site.epChild2, site.ehChild2, w.cost)]);
        }
      }
      assert CVlist2[..|CVlist2|] == CVlist2;
    }

    /** `lossmerge`: one loss plus v for every v, each kept only when no
        candidate dominates it and then recorded as a loss towards ehChild. */
    method LossMerge(ep: EdgeId, eh: EdgeId, ehChild: EdgeId, CVlist: seq<CostVector>) returns (output: seq<CostVector>)
      modifies `CVevents, `CVallEvents, `CVseen, `CVcommonEvents
      ensures output == LossOutput(CandidateCVlist, CVlist)
      ensures Records() == LossRecorded(old(Records()), intersection, CandidateCVlist, ep, eh, ehChild, CVlist)
      ensures WellFormed(old(Records())) ==> WellFormed(Records())
      ensures Grew(old(Records()), Records(), intersection)
    {
      ghost var start := Records();
      output := [];
      for j := 0 to |CVlist|
        invariant output == LossOutput(CandidateCVlist, CVlist[..j])
        invariant Records() == LossRecorded(start, intersection, CandidateCVlist, ep, eh, ehChild, CVlist[..j])
      {
        var v := CVlist[j];
        LossStep(start, intersection, CandidateCVlist, ep, eh, ehChild, CVlist, j);
        var newCV := Add(CostVector(Finite(0, 0, 0, 1), 1), v);
        var keepnewCV := KeepNew(newCV);
        if keepnewCV {
          output := output + [newCV];
          RecordEvent(Event(ep, eh, LossAt(ehChild), newCV.cost), [Solution(ep, ehChild, v.cost)]);
        }
      }
      assert CVlist[..|CVlist|] == CVlist;
      LossRecordedExtends(start, intersection, CandidateCVlist, ep, eh, ehChild, CVlist);
    }

    /** The candidate scan: stops at the first candidate that strictly
        dominates the new vector. */
    method KeepNew(newCV: CostVector) returns (keepnewCV: bool)
      ensures keepnewCV <==> !Rejected(CandidateCVlist, newCV)
    {
      keepnewCV := true;
      var k := 0;
      while k < |CandidateCVlist|
        invariant 0 <= k <= |CandidateCVlist|
        invariant forall m :: 0 <= m < k ==> !Dominates(CandidateCVlist[m].cost, newCV.cost)
      {
        if Dominates(CandidateCVlist[k].cost, newCV.cost) {
          keepnewCV := false;
          return;
        }
        k := k + 1;
      }
    }

    /** The bookkeeping for one kept vector. */
    method RecordEvent(nswe: Event, sources: seq<Solution>)
      modifies `CVevents, `CVallEvents, `CVseen, `CVcommonEvents
      ensures Records() == Recorded(old(Records()), intersection, nswe, sources)
    {
      var ns := SolutionOf(nswe);
      var events, allEvents, seen, common := CVevents, CVallEvents, CVseen, CVcommonEvents;
      events := events[nswe := Get(events, nswe) + {nswe}];
      events := events[nswe := events[nswe] + SourceEvents(allEvents, sources)];
      allEvents := allEvents[ns := Get(allEvents, ns) + events[nswe]];
      if intersection {
        var key := nswe.cost;
        if key in seen {
          common := common[key := Get(common, key) * events[nswe]];
        } else {
          common := common[key := events[nswe]];
          seen := seen + {key};
        }
      }
      CVevents, CVallEvents, CVseen, CVcommonEvents := events, allEvents, seen, common;
    }
  }
}
